/** When a connected session is in the peer table, and when it silently is not. */
module Sessions {
  import opened Bytes
  import opened Crypto
  import opened Node
  import opened Network
  import opened ChainSafety
  import opened Runs

  function OwnerOf(s: Sys, c: nat): Text
    requires c < |s.node.channels|
  {
    s.node.channels[c].owner
  }

  /** A registered channel loses its place in the peer table exactly when another connection
      registers under its node id, or any connection under that node id ends. */
  lemma RegistrationLostIff(cfg: Config, s: Sys, ev: Event, c: nat)
    requires Structure(s) && Enabled(cfg, s, ev) && Registered(s.node, c)
    ensures !Registered(Apply(cfg, s, ev).node, c) <==>
      ((ev.Connect? && ev.id == OwnerOf(s, c))
       || (ev.Disconnect? && OwnerOf(s, ev.c) == OwnerOf(s, c)))
  {
    if ev.TxIn? {
      assert Ingest(cfg.env, s.node, ev.origin, ev.tx, s.now, ev.victim).channels[c].owner == OwnerOf(s, c);
    }
  }

  /** The sessions in the peer table are exactly the connected ones. */
  ghost predicate TableMatches(s: Sys) {
    forall c :: 0 <= c < |s.sessions| ==> (s.sessions[c].connected <==> Registered(s.node, c))
  }

  /** A connection comes in under a node id that no connected session is using. */
  ghost predicate FreshId(s: Sys, ev: Event) {
    ev.Connect? ==>
      forall c :: 0 <= c < |s.sessions| && c < |s.node.channels| && s.sessions[c].connected ==>
        OwnerOf(s, c) != ev.id
  }

  lemma ConnectKeepsTable(s: Sys, id: Text, name: Text)
    requires Structure(s) && TableMatches(s) && FreshId(s, Connect(id, name))
    ensures TableMatches(AfterConnect(s, id, name))
  {
    var s' := AfterConnect(s, id, name);
    forall c | 0 <= c < |s.sessions|
      ensures s'.sessions[c].connected <==> Registered(s'.node, c)
    {
      assert s'.node.channels[c] == s.node.channels[c];
      assert Registered(s.node, c) <==> s.sessions[c].connected;
    }
  }

  lemma DisconnectKeepsTable(cfg: Config, s: Sys, k: nat)
    requires Structure(s) && TableMatches(s) && Enabled(cfg, s, Disconnect(k))
    ensures TableMatches(Apply(cfg, s, Disconnect(k)))
  {
    var s' := Apply(cfg, s, Disconnect(k));
    forall c | 0 <= c < |s.sessions|
      ensures s'.sessions[c].connected <==> Registered(s'.node, c)
    {
      assert Registered(s.node, k);
      assert Registered(s.node, c) <==> s.sessions[c].connected;
    }
  }

  lemma OthersKeepTable(cfg: Config, s: Sys, ev: Event)
    requires Structure(s) && TableMatches(s) && Enabled(cfg, s, ev) && !ev.Connect? && !ev.Disconnect?
    ensures TableMatches(Apply(cfg, s, ev))
  {
    var s' := Apply(cfg, s, ev);
    assert |s'.sessions| == |s.sessions| && |s'.node.channels| == |s.node.channels|;
    forall c | 0 <= c < |s.sessions|
      ensures s'.sessions[c].connected <==> Registered(s'.node, c)
    {
      assert s'.sessions[c].connected == s.sessions[c].connected;
      assert s'.node.peers == s.node.peers && s'.node.channels[c].owner == s.node.channels[c].owner;
      assert Registered(s.node, c) <==> s.sessions[c].connected;
    }
  }

  lemma TableKept(cfg: Config, s: Sys, ev: Event)
    requires Structure(s) && TableMatches(s) && Enabled(cfg, s, ev) && FreshId(s, ev)
    ensures TableMatches(Apply(cfg, s, ev))
  {
    match ev {
      case Connect(id, name) => ConnectKeepsTable(s, id, name);
      case Disconnect(c) => DisconnectKeepsTable(cfg, s, c);
      case _ => OthersKeepTable(cfg, s, ev);
    }
  }

  /** A connection that reuses a live id leaves the older session connected but out of the
      peer table. */
  lemma ReuseBreaksTable(cfg: Config, s: Sys, ev: Event)
    requires Structure(s) && TableMatches(s) && Enabled(cfg, s, ev) && !FreshId(s, ev)
    ensures !TableMatches(Apply(cfg, s, ev))
  {
    var c :| 0 <= c < |s.sessions| && s.sessions[c].connected && OwnerOf(s, c) == ev.id;
    var s' := Apply(cfg, s, ev);
    assert Registered(s.node, c);
    assert s'.sessions[c].connected && !Registered(s'.node, c);
  }

  lemma StepMatches(cfg: Config, states: seq<Sys>, events: seq<Event>, k: nat)
    requires Lawful(cfg.env) && Run(cfg, states, events) && k < |events|
    requires TableMatches(states[k]) && FreshId(states[k], events[k])
    ensures TableMatches(states[k + 1])
  {
    PartsInRun(cfg, states, events, k);
    assert Enabled(cfg, states[k], events[k]);
    TableKept(cfg, states[k], events[k]);
  }

  lemma {:induction false} FreshRunMatches(cfg: Config, states: seq<Sys>, events: seq<Event>, i: nat)
    requires Lawful(cfg.env) && Run(cfg, states, events) && i < |states|
    requires forall k :: 0 <= k < i ==> FreshId(states[k], events[k])
    ensures TableMatches(states[i])
  {
    if i > 0 {
      FreshRunMatches(cfg, states, events, i - 1);
      StepMatches(cfg, states, events, i - 1);
    }
  }

  lemma MatchedStepIsFresh(cfg: Config, states: seq<Sys>, events: seq<Event>, k: nat)
    requires Lawful(cfg.env) && Run(cfg, states, events) && k < |events|
    requires TableMatches(states[k]) && TableMatches(states[k + 1])
    ensures FreshId(states[k], events[k])
  {
    PartsInRun(cfg, states, events, k);
    assert Enabled(cfg, states[k], events[k]);
    if !FreshId(states[k], events[k]) {
      ReuseBreaksTable(cfg, states[k], events[k]);
    }
  }

  /** Throughout a run the peer table holds exactly the connected sessions if and only if no
      connection ever reuses the node id of a connected session. */
  lemma ConnectedIffRegistered(cfg: Config, states: seq<Sys>, events: seq<Event>)
    requires Lawful(cfg.env) && Run(cfg, states, events)
    ensures (forall i :: 0 <= i < |states| ==> TableMatches(states[i]))
       <==> (forall k :: 0 <= k < |events| ==> FreshId(states[k], events[k]))
  {
    if forall i :: 0 <= i < |states| ==> TableMatches(states[i]) {
      forall k | 0 <= k < |events| ensures FreshId(states[k], events[k]) {
        assert TableMatches(states[k]) && TableMatches(states[k + 1]);
        MatchedStepIsFresh(cfg, states, events, k);
      }
    }
    if forall k :: 0 <= k < |events| ==> FreshId(states[k], events[k]) {
      forall i | 0 <= i < |states| ensures TableMatches(states[i]) {
        FreshRunMatches(cfg, states, events, i);
      }
    }
  }

  /** Without that condition it fails: connect, connect again under the same node id, and
      let the first connection end. The second is still connected but gets nothing more. */
  lemma ReusedIdDropsNewerSession(cfg: Config, s: Sys, id: Text, name: Text)
    requires Initial(cfg, s)
    ensures var t := AfterConnect(AfterConnect(s, id, name), id, name);
      && Enabled(cfg, t, Disconnect(0))
      && var u := Apply(cfg, t, Disconnect(0));
      && u.sessions[1].connected && Registered(t.node, 1) && !Registered(u.node, 1)
  {
  }
}

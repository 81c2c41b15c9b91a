/** What the headers of a server's chain say: times, proposer, signature, hash. */
module Headers {
  import opened Bytes
  import opened Crypto
  import opened Chain
  import opened Replica
  import opened Network
  import opened ChainSafety
  import opened Runs

  // ---- Timestamps ----

  /** Made by this producer, in its slot or later, and no later than `now`. */
  ghost predicate Stamped(cfg: Config, h: BlockHeader, now: nat) {
    && cfg.clock.genesis + h.slot * 30 <= h.timestamp <= now
    && h.proposerPubkeyB64 == cfg.env.encode64(cfg.env.publicKey(cfg.sk))
  }

  ghost predicate ChainStamped(cfg: Config, chain: seq<Block>, now: nat) {
    && (forall i :: 0 <= i < |chain| ==> Stamped(cfg, chain[i].header, now))
    && (forall i, j :: 0 <= i < j < |chain| ==> chain[i].header.timestamp <= chain[j].header.timestamp)
  }

  /** The same of the block that is built and not yet committed. */
  ghost predicate NextStamped(cfg: Config, s: Sys) {
    s.phase.Built? ==>
      && Stamped(cfg, s.phase.block.header, s.now)
      && forall i :: 0 <= i < |s.chain| ==> s.chain[i].header.timestamp <= s.phase.block.header.timestamp
  }

  ghost predicate TimesSound(cfg: Config, s: Sys) {
    ChainStamped(cfg, s.chain, s.now) && NextStamped(cfg, s)
  }

  lemma BuildStamps(cfg: Config, s: Sys, b: Block)
    requires s.phase.Holding? && ChainStamped(cfg, s.chain, s.now)
    requires cfg.clock.genesis <= s.now && s.phase.slot <= cfg.clock.SlotOf(s.now)
    requires b == BlockFor(cfg.env, cfg.sk, s.phase.parentHash, s.phase.height, s.phase.slot, s.now, s.phase.txs)
    ensures TimesSound(cfg, s.(phase := Built(b)))
  {
    assert cfg.clock.SlotOf(s.now) * 30 <= s.now - cfg.clock.genesis;
  }

  lemma CommitStamps(cfg: Config, chain: seq<Block>, b: Block, now: nat)
    requires ChainStamped(cfg, chain, now) && Stamped(cfg, b.header, now)
    requires forall i :: 0 <= i < |chain| ==> chain[i].header.timestamp <= b.header.timestamp
    ensures ChainStamped(cfg, chain + [b], now)
  {
  }

  lemma OthersKeepTimes(cfg: Config, s: Sys, ev: Event)
    requires TimesSound(cfg, s) && Enabled(cfg, s, ev) && !ev.Build? && !ev.Commit?
    ensures TimesSound(cfg, Apply(cfg, s, ev))
  {
    var s' := Apply(cfg, s, ev);
    assert s'.chain == s.chain && s'.now >= s.now && (s'.phase.Built? ==> s'.phase == s.phase);
  }

  lemma TimesKept(cfg: Config, s: Sys, ev: Event)
    requires TimesSound(cfg, s) && Enabled(cfg, s, ev)
    requires ev.Build? ==> cfg.clock.genesis <= s.now && s.phase.slot <= cfg.clock.SlotOf(s.now)
    ensures TimesSound(cfg, Apply(cfg, s, ev))
  {
    match ev {
      case Build => BuildStamps(cfg, s, Apply(cfg, s, ev).phase.block);
      case Commit => CommitStamps(cfg, s.chain, s.phase.block, s.now);
      case _ => OthersKeepTimes(cfg, s, ev);
    }
  }

  lemma HeldSlotHasCome(cfg: Config, states: seq<Sys>, events: seq<Event>, i: nat)
    requires Lawful(cfg.env) && Run(cfg, states, events) && i < |states| && states[i].phase.Holding?
    ensures cfg.clock.genesis <= states[i].now && states[i].phase.slot <= cfg.clock.SlotOf(states[i].now)
  {
    RunKeepsInvariant(cfg, states, events, i);
  }

  lemma {:induction false} TimesInRun(cfg: Config, states: seq<Sys>, events: seq<Event>, i: nat)
    requires Lawful(cfg.env) && Run(cfg, states, events) && i < |states|
    ensures TimesSound(cfg, states[i])
  {
    if i > 0 {
      TimesInRun(cfg, states, events, i - 1);
      assert Enabled(cfg, states[i - 1], events[i - 1]);
      if events[i - 1].Build? {
        HeldSlotHasCome(cfg, states, events, i - 1);
      }
      TimesKept(cfg, states[i - 1], events[i - 1]);
    }
  }

  /** In every reachable state each block's timestamp is at or after the start of its slot,
      timestamps never go down along the chain, none is in the future, and every header names
      this server's key. */
  lemma TimestampsFollowSlots(cfg: Config, s: Sys)
    requires Lawful(cfg.env) && Reachable(cfg, s)
    ensures forall i :: 0 <= i < |s.chain| ==>
      cfg.clock.genesis + s.chain[i].header.slot * 30 <= s.chain[i].header.timestamp <= s.now
    ensures forall i, j :: 0 <= i < j < |s.chain| ==>
      s.chain[i].header.timestamp <= s.chain[j].header.timestamp
    ensures forall i :: 0 <= i < |s.chain| ==>
      s.chain[i].header.proposerPubkeyB64 == cfg.env.encode64(cfg.env.publicKey(cfg.sk))
  {
    var states: seq<Sys>, events: seq<Event> :| Run(cfg, states, events) && states[|events|] == s;
    TimesInRun(cfg, states, events, |events|);
  }

  // ---- Where slot, time and transactions come from ----

  /** Event `w` woke the producer in this slot. */
  ghost predicate WokeAt(cfg: Config, states: seq<Sys>, events: seq<Event>, w: nat, slot: nat) {
    && w < |events| && w < |states| && events[w].Wake?
    && cfg.clock.genesis <= states[w].now && slot == (states[w].now - cfg.clock.genesis) / 30
  }

  /** Event `k` built this block out of what was held. */
  ghost predicate BuiltAt(states: seq<Sys>, events: seq<Event>, k: nat, b: Block) {
    && k < |events| && k < |states| && events[k].Build? && states[k].phase.Holding?
    && b.header.timestamp == states[k].now
    && b.header.slot == states[k].phase.slot && b.txs == states[k].phase.txs
  }

  ghost predicate WokeBefore(cfg: Config, states: seq<Sys>, events: seq<Event>, i: nat, slot: nat) {
    exists w :: 0 <= w < i && WokeAt(cfg, states, events, w, slot)
  }

  ghost predicate BuiltBefore(states: seq<Sys>, events: seq<Event>, i: nat, b: Block) {
    exists k :: 0 <= k < i && BuiltAt(states, events, k, b)
  }

  function AwakeSlot(p: Phase): Option<nat> {
    match p case Awake(slot) => Some(slot) case Holding(slot, _, _, _) => Some(slot) case _ => None
  }

  lemma SlotComesFromWake(cfg: Config, s: Sys, ev: Event)
    requires Enabled(cfg, s, ev) && cfg.clock.genesis <= s.now
    ensures var slot := AwakeSlot(Apply(cfg, s, ev).phase);
      slot.Some? ==>
        if ev.Wake? then slot.value == (s.now - cfg.clock.genesis) / 30 else slot == AwakeSlot(s.phase)
  {
  }

  lemma ClockStarted(cfg: Config, states: seq<Sys>, events: seq<Event>, i: nat)
    requires Lawful(cfg.env) && Run(cfg, states, events) && i < |states|
    ensures cfg.clock.genesis <= states[i].now
  {
    RunKeepsInvariant(cfg, states, events, i);
  }

  lemma {:induction false} SlotWasWoken(cfg: Config, states: seq<Sys>, events: seq<Event>, i: nat)
    requires Lawful(cfg.env) && Run(cfg, states, events) && i < |states| && AwakeSlot(states[i].phase).Some?
    ensures WokeBefore(cfg, states, events, i, AwakeSlot(states[i].phase).value)
  {
    if i > 0 {
      ClockStarted(cfg, states, events, i - 1);
      assert Enabled(cfg, states[i - 1], events[i - 1]);
      SlotComesFromWake(cfg, states[i - 1], events[i - 1]);
      if events[i - 1].Wake? {
        assert WokeAt(cfg, states, events, i - 1, AwakeSlot(states[i].phase).value);
      } else {
        SlotWasWoken(cfg, states, events, i - 1);
      }
    }
  }

  /** The blocks a state holds: the chain, and the one built but not committed. */
  ghost predicate Holds(s: Sys, b: Block) { b in s.chain || s.phase == Built(b) }

  lemma BlocksComeFromBuild(cfg: Config, s: Sys, ev: Event, b: Block)
    requires Enabled(cfg, s, ev) && Holds(Apply(cfg, s, ev), b)
    ensures Holds(s, b)
         || (ev.Build? && s.phase.Holding? && b.header.timestamp == s.now
             && b.header.slot == s.phase.slot && b.txs == s.phase.txs)
  {
  }

  lemma {:induction false} BlockWasBuilt(cfg: Config, states: seq<Sys>, events: seq<Event>, i: nat, b: Block)
    requires Run(cfg, states, events) && i < |states| && Holds(states[i], b)
    ensures BuiltBefore(states, events, i, b)
  {
    if i > 0 {
      assert Enabled(cfg, states[i - 1], events[i - 1]);
      BlocksComeFromBuild(cfg, states[i - 1], events[i - 1], b);
      if Holds(states[i - 1], b) {
        BlockWasBuilt(cfg, states, events, i - 1, b);
      } else {
        assert BuiltAt(states, events, i - 1, b);
      }
    }
  }

  /** Over a run every block of the chain was built by some event: its timestamp is the clock
      at that moment, its transactions are those then held, and its slot is the one the
      producer had woken in. */
  lemma BlocksHaveOrigins(cfg: Config, states: seq<Sys>, events: seq<Event>, i: nat, c: nat) returns (w: nat, k: nat)
    requires Lawful(cfg.env) && Run(cfg, states, events) && i < |states| && c < |states[i].chain|
    ensures w < k < i && BuiltAt(states, events, k, states[i].chain[c])
    ensures WokeAt(cfg, states, events, w, states[i].chain[c].header.slot)
  {
    var b := states[i].chain[c];
    BlockWasBuilt(cfg, states, events, i, b);
    k :| 0 <= k < i && BuiltAt(states, events, k, b);
    SlotWasWoken(cfg, states, events, k);
    w :| 0 <= w < k && WokeAt(cfg, states, events, w, b.header.slot);
  }

  // ---- Signatures and hashes ----

  /** In every reachable state each block carries 64 bytes that verify, under the server's key,
      over the digest of its header's fields, and its hash is the hex of that digest hashed
      once more. The first block's parent is the seven bytes of `GENESIS`. */
  lemma BlocksAreSigned(cfg: Config, s: Sys)
    requires Lawful(cfg.env) && Reachable(cfg, s)
    ensures forall i :: 0 <= i < |s.chain| ==>
      var e, b := cfg.env, s.chain[i];
      var signed, sig := e.sha256(HeaderPreimage(b.header)), e.decode64(b.header.signatureB64);
      && sig.Some? && |sig.value| == 64 && e.verify(e.publicKey(cfg.sk), signed, sig.value)
      && b.hash == Hex(e.sha256(signed))
    ensures s.chain != [] ==> s.chain[0].header.parentHash == [71, 69, 78, 69, 83, 73, 83]
  {
    ChainPasses(cfg, s);
    forall i | 0 <= i < |s.chain|
      ensures var e, b := cfg.env, s.chain[i];
        var signed, sig := e.sha256(HeaderPreimage(b.header)), e.decode64(b.header.signatureB64);
        && sig.Some? && |sig.value| == 64 && e.verify(e.publicKey(cfg.sk), signed, sig.value)
        && b.hash == Hex(e.sha256(signed))
    {
      PassesIff(cfg.env, cfg.env.publicKey(cfg.sk), s.chain[i]);
      HashOfSignedBytes(cfg.env, s.chain[i].header);
    }
    if s.chain != [] {
      FirstParent(cfg.env, s.chain);
    }
  }

  lemma ChainPasses(cfg: Config, s: Sys)
    requires Lawful(cfg.env) && Reachable(cfg, s)
    ensures ProducerChain(cfg.env, s.chain) && forall i :: 0 <= i < |s.chain| ==> Passes(cfg, s.chain[i])
  {
    ReachableInvariant(cfg, s);
  }

  lemma FirstParent(e: Env, chain: seq<Block>)
    requires ProducerChain(e, chain) && chain != []
    ensures chain[0].header.parentHash == [71, 69, 78, 69, 83, 73, 83]
  {
    assert ExtendsChain(e, chain[..0], chain[0]);
    var root: Text := [71, 69, 78, 69, 83, 73, 83];
    assert GENESIS == root;
  }
}

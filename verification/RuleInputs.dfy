/** What the rules read: the condition each of them sees, in terms of the observations ever
    applied to the read models. */
module RuleInputs {
  import opened Types
  import opened ReadModels
  import opened TimedRules
  import opened TipLag

  // ---- The newest observation of a kind ------------------------------------------------------------

  /** The name each shape of state is filed under. */
  predicate Named(s: StateObservation, name: string) {
    match s
    case BitcoinBlockchain(_, _, _, _) => name == "bitcoin.blockchain"
    case BitcoinNetwork(_, _) => name == "bitcoin.network"
    case BitcoinPeerSummary(_, _) => name == "bitcoin.peer_summary"
    case LndNodeState(_) => name == "lnd.node"
    case LndChannelState(_, _, _) => name == "lnd.channel_detail"
    case OtherState(other) => name == other
  }

  predicate StateAbout(o: Observation, e: EntityRef, name: string) {
    o.subject == e && o.payload.State? && Named(o.payload.state, name)
  }

  lemma FiledUnder(s: StateObservation, name: string)
    ensures StateName(s) == name <==> Named(s, name)
  {
  }

  predicate HealthAbout(o: Observation, e: EntityRef, target: string) {
    o.subject == e && o.payload.Health? && o.payload.health.target == target
  }

  /** `obs[j]` is the first applied among the newest states of that name about `e`. */
  ghost predicate FirstNewestState(obs: seq<Observation>, e: EntityRef, name: string, j: nat) {
    j < |obs| && StateAbout(obs[j], e, name)
    && forall i :: 0 <= i < |obs| && StateAbout(obs[i], e, name) ==>
         obs[i].observedAt <= obs[j].observedAt && (i < j ==> obs[i].observedAt < obs[j].observedAt)
  }

  ghost predicate FirstNewestHealth(obs: seq<Observation>, e: EntityRef, target: string, j: nat) {
    j < |obs| && HealthAbout(obs[j], e, target)
    && forall i :: 0 <= i < |obs| && HealthAbout(obs[i], e, target) ==>
         obs[i].observedAt <= obs[j].observedAt && (i < j ==> obs[i].observedAt < obs[j].observedAt)
  }

  /** The newest state of that name about `e` says `s`, as of `at`. */
  ghost predicate Says(obs: seq<Observation>, e: EntityRef, name: string, s: StateObservation, at: Timestamp) {
    exists j: nat :: FirstNewestState(obs, e, name, j) && obs[j].payload.state == s && obs[j].observedAt == at
  }

  ghost predicate SaysHealth(obs: seq<Observation>, e: EntityRef, target: string, status: HealthStatus) {
    exists j: nat :: FirstNewestHealth(obs, e, target, j) && obs[j].payload.health.status == status
  }

  lemma SaysOneThing(obs: seq<Observation>, e: EntityRef, name: string, s: StateObservation, at: Timestamp,
                     s': StateObservation, at': Timestamp)
    requires Says(obs, e, name, s, at) && Says(obs, e, name, s', at')
    ensures s == s' && at == at'
  {
    var j: nat :| FirstNewestState(obs, e, name, j) && obs[j].payload.state == s && obs[j].observedAt == at;
    var j': nat :| FirstNewestState(obs, e, name, j') && obs[j'].payload.state == s' && obs[j'].observedAt == at';
    assert j == j';
  }

  // ---- The read models hold it ----------------------------------------------------------------------

  /** The state projection holds what the observations say. */
  ghost predicate HoldsStates(m: Models, obs: seq<Observation>) {
    forall e, name :: HoldsState(m, obs, e, name)
  }

  ghost predicate HoldsState(m: Models, obs: seq<Observation>, e: EntityRef, name: string) {
    match LatestState(m, e, name)
    case None => forall i :: 0 <= i < |obs| ==> !StateAbout(obs[i], e, name)
    case Some(p) =>
      exists j: nat :: FirstNewestState(obs, e, name, j) && obs[j].payload.state == p.value && obs[j].observedAt == p.observedAt
  }

  ghost predicate HoldsHealths(m: Models, obs: seq<Observation>) {
    forall e, target :: HoldsHealth(m, obs, e, target)
  }

  ghost predicate HoldsHealth(m: Models, obs: seq<Observation>, e: EntityRef, target: string) {
    if (e, target) in m.health then
      exists j: nat :: FirstNewestHealth(obs, e, target, j) && obs[j].payload.health == m.health[(e, target)].value
                  && obs[j].observedAt == m.health[(e, target)].observedAt
    else forall i :: 0 <= i < |obs| ==> !HealthAbout(obs[i], e, target)
  }

  lemma NewestStateAppend(obs: seq<Observation>, o: Observation, e: EntityRef, name: string, j: nat)
    requires FirstNewestState(obs, e, name, j)
    ensures FirstNewestState(obs + [o], e, name,
                           if StateAbout(o, e, name) && o.observedAt > obs[j].observedAt then |obs| else j)
  {
    var obs' := obs + [o];
    assert obs'[|obs|] == o && forall i :: 0 <= i < |obs| ==> obs'[i] == obs[i];
  }

  lemma FirstStateAppend(obs: seq<Observation>, o: Observation, e: EntityRef, name: string)
    requires forall i :: 0 <= i < |obs| ==> !StateAbout(obs[i], e, name)
    ensures if StateAbout(o, e, name) then FirstNewestState(obs + [o], e, name, |obs|)
            else forall i :: 0 <= i <= |obs| ==> !StateAbout((obs + [o])[i], e, name)
  {
    var obs' := obs + [o];
    assert obs'[|obs|] == o && forall i :: 0 <= i < |obs| ==> obs'[i] == obs[i];
  }

  lemma OneMoreState(capacity: nat, m: Models, obs: seq<Observation>, o: Observation, e: EntityRef, name: string)
    requires HoldsState(m, obs, e, name)
    ensures HoldsState(ApplyTo(capacity, m, o), obs + [o], e, name)
  {
    if o.payload.State? { FiledUnder(o.payload.state, name); }
    match LatestState(m, e, name)
    case None => FirstStateAppend(obs, o, e, name);
    case Some(p) =>
      var j: nat :| FirstNewestState(obs, e, name, j) && obs[j].payload.state == p.value && obs[j].observedAt == p.observedAt;
      NewestStateAppend(obs, o, e, name, j);
  }

  lemma NewestHealthAppend(obs: seq<Observation>, o: Observation, e: EntityRef, name: string, j: nat)
    requires FirstNewestHealth(obs, e, name, j)
    ensures FirstNewestHealth(obs + [o], e, name,
                           if HealthAbout(o, e, name) && o.observedAt > obs[j].observedAt then |obs| else j)
  {
    var obs' := obs + [o];
    assert obs'[|obs|] == o && forall i :: 0 <= i < |obs| ==> obs'[i] == obs[i];
  }

  lemma FirstHealthAppend(obs: seq<Observation>, o: Observation, e: EntityRef, name: string)
    requires forall i :: 0 <= i < |obs| ==> !HealthAbout(obs[i], e, name)
    ensures if HealthAbout(o, e, name) then FirstNewestHealth(obs + [o], e, name, |obs|)
            else forall i :: 0 <= i <= |obs| ==> !HealthAbout((obs + [o])[i], e, name)
  {
    var obs' := obs + [o];
    assert obs'[|obs|] == o && forall i :: 0 <= i < |obs| ==> obs'[i] == obs[i];
  }

  lemma OneMoreHealth(capacity: nat, m: Models, obs: seq<Observation>, o: Observation, e: EntityRef, target: string)
    requires HoldsHealth(m, obs, e, target)
    ensures HoldsHealth(ApplyTo(capacity, m, o), obs + [o], e, target)
  {
    var key := (e, target);
    if key in m.health {
      var j: nat :| FirstNewestHealth(obs, e, target, j) && obs[j].payload.health == m.health[key].value
                    && obs[j].observedAt == m.health[key].observedAt;
      NewestHealthAppend(obs, o, e, target, j);
    } else {
      FirstHealthAppend(obs, o, e, target);
    }
  }

  /** Applying observations keeps the projections true to all of them. */
  lemma {:induction false} AppliedHolds(capacity: nat, m: Models, obs: seq<Observation>, more: seq<Observation>)
    requires HoldsStates(m, obs) && HoldsHealths(m, obs)
    ensures HoldsStates(ApplyAll(capacity, m, more), obs + more) && HoldsHealths(ApplyAll(capacity, m, more), obs + more)
    decreases |more|
  {
    if more == [] {
      assert obs + more == obs;
    } else {
      var front, o := more[..|more| - 1], more[|more| - 1];
      AppliedHolds(capacity, m, obs, front);
      var m1 := ApplyAll(capacity, m, front);
      assert obs + more == (obs + front) + [o];
      forall e, name ensures HoldsState(ApplyTo(capacity, m1, o), obs + more, e, name) {
        assert HoldsState(m1, obs + front, e, name);
        OneMoreState(capacity, m1, obs + front, o, e, name);
      }
      forall e, target ensures HoldsHealth(ApplyTo(capacity, m1, o), obs + more, e, target) {
        assert HoldsHealth(m1, obs + front, e, target);
        OneMoreHealth(capacity, m1, obs + front, o, e, target);
      }
    }
  }

  // ---- What each rule sees ----------------------------------------------------------------------------

  /** All four calls were last reported critical. */
  ghost predicate AllCallsCritical(obs: seq<Observation>, e: EntityRef) {
    SaysHealth(obs, e, "bitcoin.rpc.getblockchaininfo", HealthCritical)
    && SaysHealth(obs, e, "bitcoin.rpc.getmempoolinfo", HealthCritical)
    && SaysHealth(obs, e, "bitcoin.rpc.getnetworkinfo", HealthCritical)
    && SaysHealth(obs, e, "bitcoin.rpc.getpeerinfo", HealthCritical)
  }

  ghost function RpcSeen(debounce: Duration, obs: seq<Observation>, e: EntityRef): Condition {
    if AllCallsCritical(obs, e) then Firing(debounce) else NotFiring
  }

  /** The outbound count of the two states: the network's own, else the peer summary's. */
  predicate Outbound(network: StateObservation, peers: StateObservation, n: nat)
    requires network.BitcoinNetwork? && peers.BitcoinPeerSummary?
  {
    network.connectionsOut == Some(n) || (network.connectionsOut == None && peers.outboundCount == Some(n))
  }

  /** Networking is on and there is no outbound peer. */
  predicate Isolated(network: StateObservation, peers: StateObservation) {
    network.BitcoinNetwork? && peers.BitcoinPeerSummary?
    && network.networkActive == Some(true) && Outbound(network, peers, 0)
  }

  /** Networking is off, or there is an outbound peer. */
  ghost predicate Connected(network: StateObservation, peers: StateObservation) {
    network.BitcoinNetwork? && peers.BitcoinPeerSummary?
    && (network.networkActive == Some(false)
        || (network.networkActive == Some(true) && exists n: nat :: n > 0 && Outbound(network, peers, n)))
  }

  /** Both states are stored and show an isolated node. */
  ghost predicate SaysIsolated(obs: seq<Observation>, e: EntityRef) {
    exists network, at, peers, at' ::
      Says(obs, e, "bitcoin.network", network, at) && Says(obs, e, "bitcoin.peer_summary", peers, at')
      && Isolated(network, peers)
  }

  ghost predicate SaysConnected(obs: seq<Observation>, e: EntityRef) {
    exists network, at, peers, at' ::
      Says(obs, e, "bitcoin.network", network, at) && Says(obs, e, "bitcoin.peer_summary", peers, at')
      && Connected(network, peers)
  }

  ghost function PeersSeen(debounce: Duration, obs: seq<Observation>, e: EntityRef): Condition {
    if SaysIsolated(obs, e) then Firing(debounce) else if SaysConnected(obs, e) then NotFiring else Unknown
  }

  /** Both states of the tip rule are stored, and `s` is the sample they give. */
  ghost predicate TipSays(obs: seq<Observation>, e: EntityRef, s: Sample) {
    exists chain, at, peers, at' ::
      Says(obs, e, "bitcoin.blockchain", chain, at) && Says(obs, e, "bitcoin.peer_summary", peers, at')
      && chain.BitcoinBlockchain? && peers.BitcoinPeerSummary?
      && s.blocks == chain.blocks && s.headers == chain.headers && s.progress == chain.verificationProgress
      && s.initialBlockDownload == chain.initialBlockDownload && s.peerCount == peers.peerCount
  }

  ghost function TipSeen(obs: seq<Observation>, e: EntityRef): Option<Sample> {
    if s :| TipSays(obs, e, s) then Some(s) else None
  }

  /** LND and its bitcoind have both reported their height within the last 90 seconds. */
  ghost predicate HeightsSay(obs: seq<Observation>, e: EntityRef, target: string, now: Timestamp, lnd: nat, bitcoind: nat) {
    exists node, at, chain, at' ::
      Says(obs, e, "lnd.node", node, at) && Says(obs, BitcoinNode(target), "bitcoin.blockchain", chain, at')
      && node.LndNodeState? && chain.BitcoinBlockchain? && node.blockHeight == lnd && chain.blocks == bitcoind
      && now - at <= 90_000_000_000 && now - at' <= 90_000_000_000
  }

  ghost function LagSeen(threshold: nat, persist: Duration, obs: seq<Observation>, e: EntityRef, target: string, now: Timestamp)
    : Option<Condition>
  {
    if lnd: nat, bitcoind: nat :| HeightsSay(obs, e, target, now, lnd, bitcoind)
    then Some(if bitcoind > lnd + threshold then Firing(persist) else NotFiring)
    else None
  }

  /** The channel's newest state is a channel state, and it is `c`. */
  ghost predicate ChannelSays(obs: seq<Observation>, e: EntityRef, c: StateObservation) {
    c.LndChannelState? && exists at :: Says(obs, e, "lnd.channel_detail", c, at)
  }

  // ---- The rules read exactly that ----------------------------------------------------------------------

  lemma StateReads(m: Models, obs: seq<Observation>, e: EntityRef, name: string)
    requires HoldsStates(m, obs)
    ensures LatestState(m, e, name).Some? ==>
              Says(obs, e, name, LatestState(m, e, name).value.value, LatestState(m, e, name).value.observedAt)
    ensures forall s, at :: Says(obs, e, name, s, at) ==>
              LatestState(m, e, name).Some? && LatestState(m, e, name).value.value == s
              && LatestState(m, e, name).value.observedAt == at
  {
    assert HoldsState(m, obs, e, name);
    forall s, at | Says(obs, e, name, s, at)
      ensures LatestState(m, e, name).Some? && LatestState(m, e, name).value.value == s
              && LatestState(m, e, name).value.observedAt == at
    {
      if LatestState(m, e, name).Some? {
        var p := LatestState(m, e, name).value;
        SaysOneThing(obs, e, name, s, at, p.value, p.observedAt);
      }
    }
  }

  lemma HealthReads(m: Models, obs: seq<Observation>, e: EntityRef, target: string, status: HealthStatus)
    requires HoldsHealths(m, obs)
    ensures CurrentHealth(m, e, target) == Some(status) <==> SaysHealth(obs, e, target, status)
  {
    assert HoldsHealth(m, obs, e, target);
    if SaysHealth(obs, e, target, status) && (e, target) in m.health {
      var j: nat :| FirstNewestHealth(obs, e, target, j) && obs[j].payload.health.status == status;
      var j': nat :| FirstNewestHealth(obs, e, target, j') && obs[j'].payload.health == m.health[(e, target)].value
                     && obs[j'].observedAt == m.health[(e, target)].observedAt;
      assert j == j';
    }
  }

  /** The unreachable-node rule sees Firing exactly when all four calls were last reported
      critical. */
  lemma RpcReads(debounce: Duration, ctx: Context, obs: seq<Observation>)
    requires HoldsHealths(ctx.models, obs)
    ensures RpcInput(debounce, ctx) == if ctx.subject.BitcoinNode? then Some(RpcSeen(debounce, obs, ctx.subject)) else None
  {
    var m, e := ctx.models, ctx.subject;
    HealthReads(m, obs, e, "bitcoin.rpc.getblockchaininfo", HealthCritical);
    HealthReads(m, obs, e, "bitcoin.rpc.getmempoolinfo", HealthCritical);
    HealthReads(m, obs, e, "bitcoin.rpc.getnetworkinfo", HealthCritical);
    HealthReads(m, obs, e, "bitcoin.rpc.getpeerinfo", HealthCritical);
    FourTargets(m, e);
  }

  lemma FourTargets(m: Models, e: EntityRef)
    ensures AllFourCritical(m, e)
            <==> CurrentHealth(m, e, "bitcoin.rpc.getblockchaininfo") == Some(HealthCritical)
                 && CurrentHealth(m, e, "bitcoin.rpc.getmempoolinfo") == Some(HealthCritical)
                 && CurrentHealth(m, e, "bitcoin.rpc.getnetworkinfo") == Some(HealthCritical)
                 && CurrentHealth(m, e, "bitcoin.rpc.getpeerinfo") == Some(HealthCritical)
  {
    assert RPC_TARGETS[0] == "bitcoin.rpc.getblockchaininfo" && RPC_TARGETS[1] == "bitcoin.rpc.getmempoolinfo";
    assert RPC_TARGETS[2] == "bitcoin.rpc.getnetworkinfo" && RPC_TARGETS[3] == "bitcoin.rpc.getpeerinfo";
  }

  /** The no-peers rule sees Firing exactly when the newest network and peer states show an
      isolated node, NotFiring exactly when they show a connected one or one that is switched
      off, and Unknown otherwise. */
  lemma PeersRead(debounce: Duration, ctx: Context, obs: seq<Observation>)
    requires HoldsStates(ctx.models, obs)
    ensures NoPeersInput(debounce, ctx) == if ctx.subject.BitcoinNode? then Some(PeersSeen(debounce, obs, ctx.subject)) else None
  {
    var m, e := ctx.models, ctx.subject;
    StateReads(m, obs, e, "bitcoin.network");
    StateReads(m, obs, e, "bitcoin.peer_summary");
    var network, peers := NetworkOf(m, e), PeersOf(m, e);
    var c := ClassifyPeers(debounce, network, peers);
    ClassifiedPeers(debounce, network, peers);
    if SaysIsolated(obs, e) {
      var n, at, p, at' :| Says(obs, e, "bitcoin.network", n, at) && Says(obs, e, "bitcoin.peer_summary", p, at') && Isolated(n, p);
      assert network == Some(n) && peers == Some(p);
    }
    if SaysConnected(obs, e) {
      var n, at, p, at' :| Says(obs, e, "bitcoin.network", n, at) && Says(obs, e, "bitcoin.peer_summary", p, at') && Connected(n, p);
      assert network == Some(n) && peers == Some(p);
    }
  }

  lemma ClassifiedPeers(debounce: Duration, network: Option<StateObservation>, peers: Option<StateObservation>)
    requires network.Some? ==> network.value.BitcoinNetwork?
    requires peers.Some? ==> peers.value.BitcoinPeerSummary?
    ensures ClassifyPeers(debounce, network, peers)
            == if network.Some? && peers.Some? && Isolated(network.value, peers.value) then Firing(debounce)
               else if network.Some? && peers.Some? && Connected(network.value, peers.value) then NotFiring
               else Unknown
  {
    if network.Some? && peers.Some? {
      var out := if network.value.connectionsOut.Some? then network.value.connectionsOut else peers.value.outboundCount;
      assert out.Some? ==> Outbound(network.value, peers.value, out.value);
    }
  }

  /** The tip rule evaluates exactly when both its states are stored, on the sample they give. */
  lemma TipReads(ctx: Context, obs: seq<Observation>)
    requires HoldsStates(ctx.models, obs)
    ensures TipInput(ctx) == if ctx.subject.BitcoinNode? then TipSeen(obs, ctx.subject) else None
  {
    var m, e := ctx.models, ctx.subject;
    StateReads(m, obs, e, "bitcoin.blockchain");
    StateReads(m, obs, e, "bitcoin.peer_summary");
    forall s | TipSays(obs, e, s) && e.BitcoinNode? ensures TipInput(ctx) == Some(s) {
      var chain, at, peers, at' :|
        Says(obs, e, "bitcoin.blockchain", chain, at) && Says(obs, e, "bitcoin.peer_summary", peers, at')
        && chain.BitcoinBlockchain? && peers.BitcoinPeerSummary?
        && s.blocks == chain.blocks && s.headers == chain.headers && s.progress == chain.verificationProgress
        && s.initialBlockDownload == chain.initialBlockDownload && s.peerCount == peers.peerCount;
      assert BlockchainOf(m, e) == Some(chain) && PeersOf(m, e) == Some(peers);
    }
    if TipInput(ctx).Some? {
      assert TipSays(obs, e, TipInput(ctx).value);
    }
  }

  /** The chain-lag rule evaluates exactly when both heights were reported within 90 seconds, and
      sees Firing exactly when bitcoind is ahead by more than the threshold. */
  lemma LagReads(target: string, threshold: nat, persist: Duration, ctx: Context, obs: seq<Observation>)
    requires HoldsStates(ctx.models, obs)
    ensures LagInput(target, threshold, persist, ctx)
            == if ctx.subject.LndNode? then LagSeen(threshold, persist, obs, ctx.subject, target, ctx.now) else None
  {
    var m, e := ctx.models, ctx.subject;
    StateReads(m, obs, e, "lnd.node");
    StateReads(m, obs, BitcoinNode(target), "bitcoin.blockchain");
    var input := LagInput(target, threshold, persist, ctx);
    forall lnd: nat, bitcoind: nat | HeightsSay(obs, e, target, ctx.now, lnd, bitcoind) && e.LndNode?
      ensures input == Some(if bitcoind > lnd + threshold then Firing(persist) else NotFiring)
    {
    }
    if input.Some? {
      var lnd := LatestState(m, e, LND_NODE).value.value.blockHeight;
      var bitcoind := LatestState(m, BitcoinNode(target), BITCOIN_BLOCKCHAIN).value.value.blocks;
      assert HeightsSay(obs, e, target, ctx.now, lnd, bitcoind);
    }
  }

  /** The channel rule evaluates exactly when the channel's newest state is one; it fires while
      the channel is inactive, after the debounce of its privacy, and drafts Critical with High
      confidence if the peer is known to be online, Warning with Medium otherwise. */
  lemma ChannelReads(publicDebounce: Duration, privateDebounce: Duration, ctx: Context, obs: seq<Observation>, c: StateObservation)
    requires HoldsStates(ctx.models, obs)
    ensures ChannelInput(publicDebounce, privateDebounce, ctx).Some?
            <==> ctx.subject.LndChannel? && exists c' :: ChannelSays(obs, ctx.subject, c')
    ensures ctx.subject.LndChannel? && ChannelSays(obs, ctx.subject, c) ==>
              ChannelOf(ctx) == Some(c)
              && ChannelInput(publicDebounce, privateDebounce, ctx)
                 == Some(if c.active then NotFiring else if c.isPrivate then Firing(privateDebounce) else Firing(publicDebounce))
              && SeverityAndConfidence(c.peerOnline)
                 == if c.peerOnline == Some(true) then (SignalSeverity.Critical, High) else (SignalSeverity.Warning, Medium)
  {
    StateReads(ctx.models, obs, ctx.subject, "lnd.channel_detail");
    if ChannelOf(ctx).Some? {
      assert ChannelSays(obs, ctx.subject, ChannelOf(ctx).value);
    }
  }
}

/** The four rules that debounce by time: two for Bitcoin nodes, two for LND. */
module TimedRules {
  import opened Types
  import opened Hysteresis
  import opened ReadModels

  /** What one evaluation found out about a subject. A firing evaluation carries the time the
      condition must hold before an Active draft. */
  datatype Condition = Firing(debounce: Duration) | NotFiring | Unknown

  datatype Timer = Timer(firstSeenAt: Option<Instant>, activeEmitted: bool)

  /** The inputs of one evaluation: the batch's two clocks, its subject and the read models. */
  datatype Context = Context(now: Timestamp, monotonicNow: Instant, subject: EntityRef, models: Models)

  const STATE_RETENTION: Duration := HOUR
  const ACTIVE_EMITTED_TTL: Duration := 24 * HOUR
  const DEFAULT_DEBOUNCE: Duration := 60 * SECOND
  const MAX_STATE_AGE: Duration := 90 * SECOND

  // ---- The machine -------------------------------------------------------------------------

  function React(t: Timer, c: Condition, now: Instant): (Timer, Option<SignalStatus>) {
    match c
    case Firing(debounce) =>
      var first := if t.firstSeenAt.Some? then t.firstSeenAt.value else now;
      if !t.activeEmitted && DurationSince(now, first) >= debounce
      then (Timer(Some(first), true), Some(Active))
      else (Timer(Some(first), t.activeEmitted), None)
    case NotFiring => (Timer(None, false), if t.activeEmitted then Some(Cleared) else None)
    case Unknown => (t, None)
  }

  function TimedMachine(idleTtl: Option<Duration>, activeTtl: Option<Duration>): Machine<Timer, Condition> {
    Machine(Timer(None, false), (t, c, now) => React(t, c, now), (t: Timer) => t.activeEmitted, idleTtl, activeTtl)
  }

  const BITCOIN_MACHINE := TimedMachine(Some(STATE_RETENTION), None)
  const LND_MACHINE := TimedMachine(Some(STATE_RETENTION), Some(ACTIVE_EMITTED_TTL))

  /** An hour for entries with nothing outstanding; for an outstanding Active, for ever with the
      Bitcoin rules and a day with the LND rules. */
  lemma Retentions()
    ensures BITCOIN_MACHINE == TimedMachine(Some(3_600_000_000_000), None)
    ensures LND_MACHINE == TimedMachine(Some(3_600_000_000_000), Some(86_400_000_000_000))
  {
  }

  lemma TimedMachineToggles(idleTtl: Option<Duration>, activeTtl: Option<Duration>)
    ensures Toggles(TimedMachine(idleTtl, activeTtl))
  {
    var m := TimedMachine(idleTtl, activeTtl);
    forall e, i, t ensures TogglesAt(m, e, i, t) {
      assert m.react(e, i, t) == React(e, i, t);
    }
  }

  lemma TouchTimed(idleTtl: Option<Duration>, activeTtl: Option<Duration>, table: Table<Timer>, subject: EntityRef, c: Condition, now: Instant)
    ensures var m := TimedMachine(idleTtl, activeTtl);
            var kept := Prune(m, table, now);
            var (core, out) := React(if subject in kept then kept[subject].core else Timer(None, false), c, now);
            Touch(m, table, subject, c, now) == (kept[subject := Tracked(core, Some(now))], out)
  {
  }

  // ---- What an evaluation reads ---------------------------------------------------------------

  const RPC_TARGETS: seq<string> :=
    ["bitcoin.rpc.getblockchaininfo", "bitcoin.rpc.getmempoolinfo", "bitcoin.rpc.getnetworkinfo", "bitcoin.rpc.getpeerinfo"]

  predicate AllFourCritical(m: Models, subject: EntityRef) {
    forall i :: 0 <= i < |RPC_TARGETS| ==> CurrentHealth(m, subject, RPC_TARGETS[i]) == Some(HealthCritical)
  }

  function RpcInput(debounce: Duration, ctx: Context): Option<Condition> {
    if !ctx.subject.BitcoinNode? then None
    else Some(if AllFourCritical(ctx.models, ctx.subject) then Firing(debounce) else NotFiring)
  }

  function NetworkOf(m: Models, subject: EntityRef): Option<StateObservation> {
    match LatestState(m, subject, BITCOIN_NETWORK)
    case Some(p) => if p.value.BitcoinNetwork? then Some(p.value) else None
    case None => None
  }

  function PeersOf(m: Models, subject: EntityRef): (r: Option<StateObservation>)
    ensures r.Some? ==> r.value.BitcoinPeerSummary?
  {
    match LatestState(m, subject, BITCOIN_PEER_SUMMARY)
    case Some(p) => if p.value.BitcoinPeerSummary? then Some(p.value) else None
    case None => None
  }

  function BlockchainOf(m: Models, subject: EntityRef): (r: Option<StateObservation>)
    ensures r.Some? ==> r.value.BitcoinBlockchain?
  {
    match LatestState(m, subject, BITCOIN_BLOCKCHAIN)
    case Some(p) => if p.value.BitcoinBlockchain? then Some(p.value) else None
    case None => None
  }

  /** Zero outbound peers while networking is on; unknown when an input is missing. The
      network state's own count wins over the peer summary's. */
  function ClassifyPeers(debounce: Duration, network: Option<StateObservation>, peers: Option<StateObservation>): (c: Condition)
    requires network.Some? ==> network.value.BitcoinNetwork?
    requires peers.Some? ==> peers.value.BitcoinPeerSummary?
    ensures c.Firing? ==> c.debounce == debounce
    ensures c.Firing? <==> network.Some? && peers.Some? && network.value.networkActive == Some(true)
                           && (network.value.connectionsOut == Some(0)
                               || (network.value.connectionsOut == None && peers.value.outboundCount == Some(0)))
    ensures c.Unknown? <==> network.None? || peers.None? || network.value.networkActive == None
                            || (network.value.networkActive == Some(true)
                                && network.value.connectionsOut == None && peers.value.outboundCount == None)
  {
    if network.None? || peers.None? || network.value.networkActive.None? then Unknown
    else if !network.value.networkActive.value then NotFiring
    else
      var outbound := if network.value.connectionsOut.Some? then network.value.connectionsOut
                      else peers.value.outboundCount;
      match outbound
      case None => Unknown
      case Some(n) => if n == 0 then Firing(debounce) else NotFiring
  }

  function NoPeersInput(debounce: Duration, ctx: Context): Option<Condition> {
    if !ctx.subject.BitcoinNode? then None
    else Some(ClassifyPeers(debounce, NetworkOf(ctx.models, ctx.subject), PeersOf(ctx.models, ctx.subject)))
  }

  predicate Stale(ctx: Context, p: Projected<StateObservation>) {
    ctx.now - p.observedAt > MAX_STATE_AGE
  }

  /** No evaluation unless both heights are known and fresh. */
  function LagInput(target: string, threshold: nat, persist: Duration, ctx: Context): Option<Condition> {
    if !ctx.subject.LndNode? then None
    else
      var lnd := LatestState(ctx.models, ctx.subject, LND_NODE);
      var bitcoind := LatestState(ctx.models, BitcoinNode(target), BITCOIN_BLOCKCHAIN);
      if lnd.None? || Stale(ctx, lnd.value) || !lnd.value.value.LndNodeState? then None
      else if bitcoind.None? || Stale(ctx, bitcoind.value) || !bitcoind.value.value.BitcoinBlockchain? then None
      else if bitcoind.value.value.blocks - lnd.value.value.blockHeight > threshold then Some(Firing(persist))
      else Some(NotFiring)
  }

  function ChannelOf(ctx: Context): (r: Option<StateObservation>)
    ensures r.Some? ==> r.value.LndChannelState?
  {
    if !ctx.subject.LndChannel? then None
    else
      match LatestState(ctx.models, ctx.subject, LND_CHANNEL_DETAIL)
      case Some(p) => if p.value.LndChannelState? then Some(p.value) else None
      case None => None
  }

  function ChannelInput(publicDebounce: Duration, privateDebounce: Duration, ctx: Context): Option<Condition> {
    match ChannelOf(ctx)
    case None => None
    case Some(c) =>
      Some(if c.active then NotFiring else Firing(if c.isPrivate then privateDebounce else publicDebounce))
  }

  function SeverityAndConfidence(peerOnline: Option<bool>): (SignalSeverity, Confidence) {
    if peerOnline == Some(true) then (SignalSeverity.Critical, High) else (SignalSeverity.Warning, Medium)
  }

  function BuildDraft(kind: string, subject: EntityRef, status: SignalStatus, level: (SignalSeverity, Confidence)): Draft {
    Draft(subject, SignalNameFor(kind), kind, None, level.0, status, level.1, [])
  }

  const CRITICAL_HIGH: (SignalSeverity, Confidence) := (SignalSeverity.Critical, High)

  function DraftsFor(kind: string, subject: EntityRef, out: Option<SignalStatus>, level: (SignalSeverity, Confidence)): seq<Draft> {
    match out
    case None => []
    case Some(status) => [BuildDraft(kind, subject, status, level)]
  }

  /** The effect of an evaluation on a rule's table and the drafts it returns. */
  function Evaluated(m: Machine<Timer, Condition>, table: Table<Timer>, input: Option<Condition>, kind: string,
                     ctx: Context, level: (SignalSeverity, Confidence)): (Table<Timer>, seq<Draft>)
  {
    match input
    case None => (table, [])
    case Some(c) =>
      var (table', out) := Touch(m, table, ctx.subject, c, ctx.monotonicNow);
      (table', DraftsFor(kind, ctx.subject, out, level))
  }

  // ---- The rules ---------------------------------------------------------------------------------

  class BitcoinRpcUnreachableRule {
    const debounce: Duration
    var state: Table<Timer>

    constructor (debounce: Duration)
      ensures this.debounce == debounce && state == map[]
    {
      this.debounce := debounce;
      state := map[];
    }

    method Evaluate(ctx: Context) returns (drafts: seq<Draft>)
      modifies this
      ensures (state, drafts) == Evaluated(BITCOIN_MACHINE, old(state), RpcInput(debounce, ctx),
                                           BITCOIN_RPC_UNREACHABLE, ctx, CRITICAL_HIGH)
    {
      drafts := [];
      if !ctx.subject.BitcoinNode? {
        return;
      }
      var allCritical := AllFourCritical(ctx.models, ctx.subject);
      PruneStale(ctx.monotonicNow);
      ghost var kept := state;
      if ctx.subject !in state {
        state := state[ctx.subject := Tracked(Timer(None, false), None)];
      }
      var entry := state[ctx.subject].(lastTouchedAt := Some(ctx.monotonicNow));
      if allCritical {
        if entry.core.firstSeenAt.None? {
          entry := entry.(core := entry.core.(firstSeenAt := Some(ctx.monotonicNow)));
        }
        var held := DurationSince(ctx.monotonicNow, entry.core.firstSeenAt.value);
        if !entry.core.activeEmitted && held >= debounce {
          entry := entry.(core := entry.core.(activeEmitted := true));
          drafts := [BuildDraft(BITCOIN_RPC_UNREACHABLE, ctx.subject, Active, CRITICAL_HIGH)];
        }
      } else {
        entry := entry.(core := entry.core.(firstSeenAt := None));
        if entry.core.activeEmitted {
          entry := entry.(core := entry.core.(activeEmitted := false));
          drafts := [BuildDraft(BITCOIN_RPC_UNREACHABLE, ctx.subject, Cleared, CRITICAL_HIGH)];
        }
      }
      state := state[ctx.subject := entry];
      TouchTimed(Some(STATE_RETENTION), None, old(state), ctx.subject,
                 if allCritical then Firing(debounce) else NotFiring, ctx.monotonicNow);
      assert state == kept[ctx.subject := entry];
    }

    method PruneStale(now: Instant)
      modifies this
      ensures state == Prune(BITCOIN_MACHINE, old(state), now)
    {
      state := map s | s in state
        && (state[s].core.activeEmitted || state[s].lastTouchedAt.None?
            || DurationSince(now, state[s].lastTouchedAt.value) < STATE_RETENTION) :: state[s];
    }
  }

  class BitcoinNoPeersRule {
    const debounce: Duration
    var state: Table<Timer>

    constructor (debounce: Duration)
      ensures this.debounce == debounce && state == map[]
    {
      this.debounce := debounce;
      state := map[];
    }

    method Evaluate(ctx: Context) returns (drafts: seq<Draft>)
      modifies this
      ensures (state, drafts) == Evaluated(BITCOIN_MACHINE, old(state), NoPeersInput(debounce, ctx),
                                           BITCOIN_NO_PEERS, ctx, CRITICAL_HIGH)
    {
      drafts := [];
      if !ctx.subject.BitcoinNode? {
        return;
      }
      var condition := ClassifyPeers(debounce, NetworkOf(ctx.models, ctx.subject), PeersOf(ctx.models, ctx.subject));
      PruneStale(ctx.monotonicNow);
      ghost var kept := state;
      if ctx.subject !in state {
        state := state[ctx.subject := Tracked(Timer(None, false), None)];
      }
      var entry := state[ctx.subject].(lastTouchedAt := Some(ctx.monotonicNow));
      match condition {
        case Firing(_) =>
          if entry.core.firstSeenAt.None? {
            entry := entry.(core := entry.core.(firstSeenAt := Some(ctx.monotonicNow)));
          }
          var held := DurationSince(ctx.monotonicNow, entry.core.firstSeenAt.value);
          if !entry.core.activeEmitted && held >= debounce {
            entry := entry.(core := entry.core.(activeEmitted := true));
            drafts := [BuildDraft(BITCOIN_NO_PEERS, ctx.subject, Active, CRITICAL_HIGH)];
          }
        case NotFiring =>
          entry := entry.(core := entry.core.(firstSeenAt := None));
          if entry.core.activeEmitted {
            entry := entry.(core := entry.core.(activeEmitted := false));
            drafts := [BuildDraft(BITCOIN_NO_PEERS, ctx.subject, Cleared, CRITICAL_HIGH)];
          }
        case Unknown =>
      }
      state := state[ctx.subject := entry];
      TouchTimed(Some(STATE_RETENTION), None, old(state), ctx.subject,
                 condition, ctx.monotonicNow);
      assert state == kept[ctx.subject := entry];
    }

    method PruneStale(now: Instant)
      modifies this
      ensures state == Prune(BITCOIN_MACHINE, old(state), now)
    {
      state := map s | s in state
        && (state[s].core.activeEmitted || state[s].lastTouchedAt.None?
            || DurationSince(now, state[s].lastTouchedAt.value) < STATE_RETENTION) :: state[s];
    }
  }

  class LndChainBackendLagRule {
    const correlationTarget: string
    const lagBlocksThreshold: nat
    const lagPersist: Duration
    var state: Table<Timer>

    constructor (correlationTarget: string, lagBlocksThreshold: nat, lagPersist: Duration)
      ensures this.correlationTarget == correlationTarget && this.lagBlocksThreshold == lagBlocksThreshold
      ensures this.lagPersist == lagPersist && state == map[]
    {
      this.correlationTarget := correlationTarget;
      this.lagBlocksThreshold := lagBlocksThreshold;
      this.lagPersist := lagPersist;
      state := map[];
    }

    method Evaluate(ctx: Context) returns (drafts: seq<Draft>)
      modifies this
      ensures (state, drafts) == Evaluated(LND_MACHINE, old(state),
                                           LagInput(correlationTarget, lagBlocksThreshold, lagPersist, ctx),
                                           LND_CHAIN_BACKEND_LAG, ctx, CRITICAL_HIGH)
    {
      drafts := [];
      if !ctx.subject.LndNode? {
        return;
      }
      var lnd := LatestState(ctx.models, ctx.subject, LND_NODE);
      if lnd.None? || ctx.now - lnd.value.observedAt > MAX_STATE_AGE || !lnd.value.value.LndNodeState? {
        return;
      }
      var bitcoind := LatestState(ctx.models, BitcoinNode(correlationTarget), BITCOIN_BLOCKCHAIN);
      if bitcoind.None? || ctx.now - bitcoind.value.observedAt > MAX_STATE_AGE
         || !bitcoind.value.value.BitcoinBlockchain? {
        return;
      }
      var lndHeight, bitcoindHeight := lnd.value.value.blockHeight, bitcoind.value.value.blocks;
      var gap := if bitcoindHeight >= lndHeight then bitcoindHeight - lndHeight else 0;
      var lagged := gap > lagBlocksThreshold;
      PruneStale(ctx.monotonicNow);
      ghost var kept := state;
      if ctx.subject !in state {
        state := state[ctx.subject := Tracked(Timer(None, false), None)];
      }
      var entry := state[ctx.subject].(lastTouchedAt := Some(ctx.monotonicNow));
      if lagged {
        if entry.core.firstSeenAt.None? {
          entry := entry.(core := entry.core.(firstSeenAt := Some(ctx.monotonicNow)));
        }
        var held := DurationSince(ctx.monotonicNow, entry.core.firstSeenAt.value);
        if !entry.core.activeEmitted && held >= lagPersist {
          entry := entry.(core := entry.core.(activeEmitted := true));
          drafts := [BuildDraft(LND_CHAIN_BACKEND_LAG, ctx.subject, Active, CRITICAL_HIGH)];
        }
      } else {
        entry := entry.(core := entry.core.(firstSeenAt := None));
        if entry.core.activeEmitted {
          entry := entry.(core := entry.core.(activeEmitted := false));
          drafts := [BuildDraft(LND_CHAIN_BACKEND_LAG, ctx.subject, Cleared, CRITICAL_HIGH)];
        }
      }
      state := state[ctx.subject := entry];
      TouchTimed(Some(STATE_RETENTION), Some(ACTIVE_EMITTED_TTL), old(state), ctx.subject,
                 if lagged then Firing(lagPersist) else NotFiring, ctx.monotonicNow);
      assert state == kept[ctx.subject := entry];
    }

    method PruneStale(now: Instant)
      modifies this
      ensures state == Prune(LND_MACHINE, old(state), now)
    {
      state := map s | s in state
        && (state[s].lastTouchedAt.None?
            || DurationSince(now, state[s].lastTouchedAt.value)
               < if state[s].core.activeEmitted then ACTIVE_EMITTED_TTL else STATE_RETENTION) :: state[s];
    }
  }

  class LndChannelInactiveRule {
    const publicDebounce: Duration
    const privateDebounce: Duration
    var state: Table<Timer>

    constructor (publicDebounce: Duration, privateDebounce: Duration)
      ensures this.publicDebounce == publicDebounce && this.privateDebounce == privateDebounce && state == map[]
    {
      this.publicDebounce := publicDebounce;
      this.privateDebounce := privateDebounce;
      state := map[];
    }

    method Evaluate(ctx: Context) returns (drafts: seq<Draft>)
      modifies this
      ensures var level := if ChannelOf(ctx).Some? then SeverityAndConfidence(ChannelOf(ctx).value.peerOnline)
                           else CRITICAL_HIGH;
              (state, drafts) == Evaluated(LND_MACHINE, old(state), ChannelInput(publicDebounce, privateDebounce, ctx),
                                           LND_CHANNEL_INACTIVE, ctx, level)
    {
      drafts := [];
      var channel := ChannelOf(ctx);
      if channel.None? {
        return;
      }
      var level := SeverityAndConfidence(channel.value.peerOnline);
      PruneStale(ctx.monotonicNow);
      ghost var kept := state;
      if ctx.subject !in state {
        state := state[ctx.subject := Tracked(Timer(None, false), None)];
      }
      var entry := state[ctx.subject].(lastTouchedAt := Some(ctx.monotonicNow));
      if channel.value.active {
        entry := entry.(core := entry.core.(firstSeenAt := None));
        if entry.core.activeEmitted {
          entry := entry.(core := entry.core.(activeEmitted := false));
          drafts := [BuildDraft(LND_CHANNEL_INACTIVE, ctx.subject, Cleared, level)];
        }
      } else {
        if entry.core.firstSeenAt.None? {
          entry := entry.(core := entry.core.(firstSeenAt := Some(ctx.monotonicNow)));
        }
        var held := DurationSince(ctx.monotonicNow, entry.core.firstSeenAt.value);
        var debounce := if channel.value.isPrivate then privateDebounce else publicDebounce;
        if !entry.core.activeEmitted && held >= debounce {
          entry := entry.(core := entry.core.(activeEmitted := true));
          drafts := [BuildDraft(LND_CHANNEL_INACTIVE, ctx.subject, Active, level)];
        }
      }
      state := state[ctx.subject := entry];
      TouchTimed(Some(STATE_RETENTION), Some(ACTIVE_EMITTED_TTL), old(state), ctx.subject,
                 if channel.value.active then NotFiring else Firing(if channel.value.isPrivate then privateDebounce else publicDebounce), ctx.monotonicNow);
      assert state == kept[ctx.subject := entry];
    }

    method PruneStale(now: Instant)
      modifies this
      ensures state == Prune(LND_MACHINE, old(state), now)
    {
      state := map s | s in state
        && (state[s].lastTouchedAt.None?
            || DurationSince(now, state[s].lastTouchedAt.value)
               < if state[s].core.activeEmitted then ACTIVE_EMITTED_TTL else STATE_RETENTION) :: state[s];
    }
  }

  // ---- Exact debounce -----------------------------------------------------------------------------

  type TimedVisit = Visit<Condition>

  /** The subject's visits after its last NotFiring. */
  function Stretch(own: seq<TimedVisit>): seq<TimedVisit> {
    if own == [] || own[|own| - 1].input.NotFiring? then []
    else Stretch(own[..|own| - 1]) + [own[|own| - 1]]
  }

  /** When a stretch fired for the first time. */
  function FirstFiring(st: seq<TimedVisit>): (r: Option<Instant>)
    ensures r.Some? <==> exists i :: 0 <= i < |st| && st[i].input.Firing?
    ensures r.Some? ==> exists i :: 0 <= i < |st| && st[i].input.Firing? && st[i].at == r.value
                                    && forall j :: 0 <= j < i ==> !st[j].input.Firing?
  {
    if st == [] then None
    else
      var front, last := st[..|st| - 1], st[|st| - 1];
      assert forall i :: 0 <= i < |front| ==> front[i] == st[i];
      var r := FirstFiring(front);
      if r.Some? then r else if last.input.Firing? then Some(last.at) else None
  }

  /** Visit `i` fires at least its debounce after the stretch first fired. */
  predicate HeldAt(st: seq<TimedVisit>, i: nat)
    requires i < |st|
  {
    st[i].input.Firing? && FirstFiring(st).Some?
    && DurationSince(st[i].at, FirstFiring(st).value) >= st[i].input.debounce
  }

  ghost predicate Held(st: seq<TimedVisit>) {
    exists i :: 0 <= i < |st| && HeldAt(st, i)
  }

  lemma HeldAppend(st: seq<TimedVisit>, v: TimedVisit)
    ensures Held(st + [v]) <==> Held(st) || HeldAt(st + [v], |st|)
  {
    var st' := st + [v];
    assert st'[..|st|] == st;
    if FirstFiring(st).Some? {
      assert FirstFiring(st') == FirstFiring(st);
    } else {
      assert forall i :: 0 <= i < |st| ==> !st[i].input.Firing?;
    }
    forall i | 0 <= i < |st| ensures HeldAt(st', i) <==> HeldAt(st, i) {
    }
    if Held(st) {
      var i :| 0 <= i < |st| && HeldAt(st, i);
      assert HeldAt(st', i);
    }
  }

  /** The timer describes the stretch `st`. */
  ghost predicate Describes(t: Timer, st: seq<TimedVisit>) {
    t.firstSeenAt == FirstFiring(st) && (t.activeEmitted <==> Held(st))
  }

  lemma ReactDescribes(t: Timer, st: seq<TimedVisit>, v: TimedVisit)
    requires Describes(t, st)
    ensures var (t', out) := React(t, v.input, v.at);
            Describes(t', if v.input.NotFiring? then [] else st + [v])
            && (out == Some(Active) <==> v.input.Firing? && HeldAt(st + [v], |st|) && !Held(st))
            && (out == Some(Cleared) <==> v.input.NotFiring? && Held(st))
  {
    var st' := st + [v];
    HeldAppend(st, v);
    assert st'[..|st'| - 1] == st;
    assert FirstFiring(st') == if FirstFiring(st).Some? then FirstFiring(st)
                               else if v.input.Firing? then Some(v.at) else None;
  }

  lemma {:induction false} TimerIsStretch(own: seq<TimedVisit>, now: Instant)
    ensures Describes(Resumed(TimedMachine(None, None), Solo(TimedMachine(None, None), own).0, now), Stretch(own))
    decreases |own|
  {
    var m := TimedMachine(None, None);
    if own == [] {
      assert Resumed(m, Solo(m, own).0, now) == Timer(None, false);
    } else {
      var front, v := own[..|own| - 1], own[|own| - 1];
      TimerIsStretch(front, v.at);
      var before := Resumed(m, Solo(m, front).0, v.at);
      ReactDescribes(before, Stretch(front), v);
      assert m.react(before, v.input, v.at) == React(before, v.input, v.at);
      assert Resumed(m, Solo(m, own).0, now) == React(before, v.input, v.at).0;
    }
  }

  /** When the last visit's subject was visited in time, or whenever it was not its entry held
      nothing, the rule emits Active exactly when the subject fires, has been firing for the debounce since
      the stretch first fired, and no earlier visit of the stretch had; and Cleared exactly
      when the subject stops firing after a stretch that had. An Unknown visit emits nothing
      and neither ends nor advances the stretch. */
  lemma ExactDebounce(idleTtl: Option<Duration>, activeTtl: Option<Duration>, visits: seq<TimedVisit>)
    requires visits != [] && Monotone(visits)
    requires AllHarmless(TimedMachine(idleTtl, activeTtl), Own(visits, visits[|visits| - 1].subject))
    ensures var v := visits[|visits| - 1];
            var out := Run(TimedMachine(idleTtl, activeTtl), visits).1[|visits| - 1];
            var own := Own(visits, v.subject);
            own != [] && own[|own| - 1] == v
            && var earlier := Stretch(own[..|own| - 1]);
               (out == Some(Active) <==> v.input.Firing? && HeldAt(earlier + [v], |earlier|) && !Held(earlier))
               && (out == Some(Cleared) <==> v.input.NotFiring? && Held(earlier))
  {
    var m, n := TimedMachine(idleTtl, activeTtl), |visits| - 1;
    var v := visits[n];
    LastOutput(m, visits);
    var own := Own(visits, v.subject);
    SoloUnpruned(m, own);
    var u := TimedMachine(None, None);
    assert Unpruned(m) == u;
    var front := own[..|own| - 1];
    TimerIsStretch(front, v.at);
    var before := Resumed(u, Solo(u, front).0, v.at);
    assert u.react(before, v.input, v.at) == React(before, v.input, v.at);
    ReactDescribes(before, Stretch(front), v);
  }

  // ---- The rules' promises, from the theory ----------------------------------------------------------

  /** The Bitcoin rules' drafts alternate per subject whatever the gaps. The LND rules' do if
      and only if, from each visit that comes a day or more after an Active still outstanding, a
      new rule would stay silent; their Cleared is always matched. */
  lemma TimedDraftsAlternate(visits: seq<TimedVisit>, s: EntityRef)
    requires Monotone(visits)
    ensures Alternates(Emitted(OwnOutputs(visits, Run(BITCOIN_MACHINE, visits).1, s)))
    ensures var own, outs := Own(visits, s), OwnOutputs(visits, Run(LND_MACHINE, visits).1, s);
            |own| == |outs|
            && (Alternates(Emitted(outs)) <==> NothingAfterDrops(LND_MACHINE, own))
            && (Alternates(Emitted(outs)) <==> SilentOnceForgotten(own, outs, Some(86_400_000_000_000)))
            && (NoGaps(own, Some(86_400_000_000_000)) ==> Alternates(Emitted(outs)))
            && ClearedIsMatched(Emitted(outs))
  {
    TimedMachineToggles(Some(STATE_RETENTION), None);
    TimedMachineToggles(Some(STATE_RETENTION), Some(ACTIVE_EMITTED_TTL));
    DraftsAlternate(BITCOIN_MACHINE, visits, s);
    DraftsAlternateExactly(LND_MACHINE, visits, s);
    ClearedAnswersActive(LND_MACHINE, visits, s);
  }

  /** Gaps do change drafts. Two firing visits exactly an hour apart never open the incident
      they would open without pruning. An LND subject that keeps firing, but is left alone for a
      day after its Active, is announced Active again with no Cleared between, whatever the
      debounce below an hour. */
  lemma GapsAreObservable(s: EntityRef, debounce: Duration)
    requires 0 < debounce < HOUR
    ensures var v := [Visit(s, Firing(DEFAULT_DEBOUNCE), 0), Visit(s, Firing(DEFAULT_DEBOUNCE), HOUR)];
            Run(BITCOIN_MACHINE, v).1 == [None, None] && Run(Unpruned(BITCOIN_MACHINE), v).1 == [None, Some(Active)]
    ensures var day := debounce + 24 * HOUR;
            Run(LND_MACHINE, [Visit(s, Firing(debounce), 0), Visit(s, Firing(debounce), debounce),
                              Visit(s, Firing(debounce), day), Visit(s, Firing(debounce), day + debounce)]).1
            == [None, Some(Active), None, Some(Active)]
  {
    TwoVisits(Some(STATE_RETENTION), None, s, DEFAULT_DEBOUNCE, HOUR);
    TwoVisits(None, None, s, DEFAULT_DEBOUNCE, HOUR);
    assert Unpruned(BITCOIN_MACHINE) == TimedMachine(None, None);
    AnnouncedTwice(s, debounce);
  }

  lemma AnnouncedTwice(s: EntityRef, debounce: Duration)
    requires 0 < debounce < HOUR
    ensures var day := debounce + 24 * HOUR;
            Run(LND_MACHINE, [Visit(s, Firing(debounce), 0), Visit(s, Firing(debounce), debounce),
                              Visit(s, Firing(debounce), day), Visit(s, Firing(debounce), day + debounce)]).1
            == [None, Some(Active), None, Some(Active)]
  {
    var day, again := debounce + 24 * HOUR, debounce + 24 * HOUR + debounce;
    TwoVisits(Some(STATE_RETENTION), Some(ACTIVE_EMITTED_TTL), s, debounce, debounce);
    var two := [Visit(s, Firing(debounce), 0), Visit(s, Firing(debounce), debounce)];
    var three := two + [Visit(s, Firing(debounce), day)];
    LoneVisit(LND_MACHINE, two, s, Some(Tracked(Timer(Some(0), true), Some(debounce))), Firing(debounce), day);
    LoneVisit(LND_MACHINE, three, s, Some(Tracked(Timer(Some(day), false), Some(day))), Firing(debounce), again);
    assert three + [Visit(s, Firing(debounce), again)]
           == [two[0], two[1], Visit(s, Firing(debounce), day), Visit(s, Firing(debounce), again)];
  }

  /** One visit of the only subject. */
  lemma LoneVisit(m: Machine<Timer, Condition>, visits: seq<TimedVisit>, s: EntityRef, entry: Option<Tracked<Timer>>,
                  c: Condition, at: Instant)
    requires Run(m, visits).0 == match entry { case None => map[] case Some(t) => map[s := t] }
    ensures var (core, out) := m.react(Resumed(m, entry, at), c, at);
            Run(m, visits + [Visit(s, c, at)]) == (map[s := Tracked(core, Some(at))], Run(m, visits).1 + [out])
  {
    var visits' := visits + [Visit(s, c, at)];
    assert visits'[..|visits|] == visits;
    var table := Run(m, visits).0;
    var kept := Prune(m, table, at);
    assert s in kept <==> entry.Some? && Fresh(m, entry.value, at);
    var (core, out) := m.react(Resumed(m, entry, at), c, at);
    assert kept[s := Tracked(core, Some(at))] == map[s := Tracked(core, Some(at))];
  }

  lemma TwoVisits(idleTtl: Option<Duration>, activeTtl: Option<Duration>, s: EntityRef, debounce: Duration, later: Instant)
    requires 0 < debounce
    ensures var m, t := TimedMachine(idleTtl, activeTtl), Tracked(Timer(Some(0), false), Some(0));
            var (core, out) := React(if Fresh(m, t, later) then t.core else m.initial, Firing(debounce), later);
            Run(m, [Visit(s, Firing(debounce), 0), Visit(s, Firing(debounce), later)])
            == (map[s := Tracked(core, Some(later))], [None, out])
  {
    var m := TimedMachine(idleTtl, activeTtl);
    LoneVisit(m, [], s, None, Firing(debounce), 0);
    var one := [Visit(s, Firing(debounce), 0)];
    assert [] + one == one;
    assert m.react(m.initial, Firing(debounce), 0) == (Timer(Some(0), false), None);
    assert Run(m, one) == (map[s := Tracked(Timer(Some(0), false), Some(0))], [None]) by {
      assert Run(m, []).1 + [None] == [None];
    }
    var t := Tracked(Timer(Some(0), false), Some(0));
    LoneVisit(m, one, s, Some(t), Firing(debounce), later);
    var before := if Fresh(m, t, later) then t.core else m.initial;
    assert Resumed(m, Some(t), later) == before;
    assert m.react(before, Firing(debounce), later) == React(before, Firing(debounce), later);
    var none: seq<Option<SignalStatus>> := [None];
    assert none + [React(before, Firing(debounce), later).1] == [None, React(before, Firing(debounce), later).1];
    assert one + [Visit(s, Firing(debounce), later)] == [Visit(s, Firing(debounce), 0), Visit(s, Firing(debounce), later)];
  }
}

/** The consumer task: one batch at a time through the read models, the rules, the engine and
    the durable mirror. */
module Pipeline {
  import opened Types
  import opened Kinds
  import opened Engine
  import opened Hysteresis
  import opened ReadModels
  import opened TimedRules
  import opened TipLag
  import Mirror
  import opened FanOuts
  import Notifications

  // ---- Specification -----------------------------------------------------------------------

  datatype Config = Config(
    rpcDebounce: Duration,
    peersDebounce: Duration,
    flatWindow: Duration,
    ticks: nat,
    capacity: nat,
    kinds: Registry)

  datatype World = World(
    rpc: Table<Timer>,
    peers: Table<Timer>,
    tip: Table<Tracker>,
    models: Models,
    system: Mirror.System)

  const START := World(map[], map[], map[], NO_MODELS, Mirror.EMPTY)

  /** What the outside world decides while a batch is processed: the observation whose append
      fails, if any, the observation and incident id drawn for each draft, and the outcomes of
      the three tries to save the incident the draft touches. */
  datatype Io = Io(appendFailsAt: Option<nat>, ids: seq<(Id, Id)>, saves: seq<seq<Mirror.SaveOutcome>>)

  datatype Batch = Batch(result: ProbeResult, now: Timestamp, monotonicNow: Instant, io: Io)

  predicate ValidIo(io: Io) {
    |io.ids| == 3 && |io.saves| == 3 && forall i :: 0 <= i < 3 ==> |io.saves[i]| == 3
  }

  function ObservationsFromBatch(r: ProbeResult): seq<Observation> {
    match r
    case ProbeOk(observations) => observations
    case ProbeFailed(_, partials) => partials
  }

  function ModelsAfter(capacity: nat, m: Models, events: seq<Event>): Models
    decreases events
  {
    if events == [] then m
    else ModelsAfter(capacity, if events[0].SignalRecorded? then ApplyTo(capacity, m, events[0].observation) else m, events[1..])
  }

  /** The consumer's handling of one draft: the engine, then each of its events in order. */
  function HandleDraft(cfg: Config, m: Models, s: Mirror.System, c: Command, saved: bool)
    : (Models, Mirror.System, seq<LifecycleEvent>)
  {
    var outcome := Record(cfg.kinds, s.open, c).1;
    var events := if outcome.Ok? then outcome.value else [];
    (ModelsAfter(cfg.capacity, m, events), Mirror.HandleStep(cfg.kinds, s, c, saved), LifecycleIn(events))
  }

  function CommandsOf(drafts: seq<Draft>, now: Timestamp, ids: seq<(Id, Id)>): seq<Command>
    requires |drafts| <= |ids|
  {
    seq(|drafts|, i requires 0 <= i < |drafts| => Command(drafts[i], now, ids[i].0, ids[i].1))
  }

  function HandleDrafts(cfg: Config, m: Models, s: Mirror.System, cmds: seq<Command>, saves: seq<seq<Mirror.SaveOutcome>>)
    : (Models, Mirror.System, seq<LifecycleEvent>)
    requires |cmds| <= |saves|
  {
    if cmds == [] then (m, s, [])
    else
      var n := |cmds| - 1;
      var (m1, s1, l1) := HandleDrafts(cfg, m, s, cmds[..n], saves);
      var (m2, s2, l2) := HandleDraft(cfg, m1, s1, cmds[n], Mirror.Written(saves[n]));
      (m2, s2, l1 + l2)
  }

  lemma HandleOneMore(cfg: Config, m: Models, s: Mirror.System, cmds: seq<Command>, saves: seq<seq<Mirror.SaveOutcome>>, i: nat)
    requires i < |cmds| <= |saves|
    ensures var (m1, s1, l1) := HandleDrafts(cfg, m, s, cmds[..i], saves);
            var (m2, s2, l2) := HandleDraft(cfg, m1, s1, cmds[i], Mirror.Written(saves[i]));
            HandleDrafts(cfg, m, s, cmds[..i + 1], saves) == (m2, s2, l1 + l2)
  {
    assert cmds[..i + 1][..i] == cmds[..i];
  }

  /** The three rules' tables after an evaluation, and their drafts in rule order. */
  function EvaluateRules(cfg: Config, w: World, ctx: Context): (r: (World, seq<Draft>))
    ensures |r.1| <= 3
  {
    var (rpc, d1) := Evaluated(BITCOIN_MACHINE, w.rpc, RpcInput(cfg.rpcDebounce, ctx), BITCOIN_RPC_UNREACHABLE, ctx, CRITICAL_HIGH);
    var (peers, d2) := Evaluated(BITCOIN_MACHINE, w.peers, NoPeersInput(cfg.peersDebounce, ctx), BITCOIN_NO_PEERS, ctx, CRITICAL_HIGH);
    var (tip, d3) := EvaluatedTip(cfg.flatWindow, cfg.ticks, w.tip, ctx);
    (w.(rpc := rpc, peers := peers, tip := tip), d1 + d2 + d3)
  }

  function BatchStep(cfg: Config, w: World, b: Batch): (World, seq<LifecycleEvent>)
    requires ValidIo(b.io)
  {
    var obs := ObservationsFromBatch(b.result);
    if obs == [] then (w, [])
    else if b.io.appendFailsAt.Some? && b.io.appendFailsAt.value < |obs| then
      (w.(models := ApplyAll(cfg.capacity, w.models, obs[..b.io.appendFailsAt.value])), [])
    else
      var w1 := w.(models := ApplyAll(cfg.capacity, w.models, obs));
      var (w2, drafts) := EvaluateRules(cfg, w1, Context(b.now, b.monotonicNow, obs[0].subject, w1.models));
      var (models, system, lifecycle) :=
        HandleDrafts(cfg, w1.models, w1.system, CommandsOf(drafts, b.now, b.io.ids), b.io.saves);
      (w2.(models := models, system := system), lifecycle)
  }

  // ---- The consumer ---------------------------------------------------------------------------

  class Consumer {
    const rpc: BitcoinRpcUnreachableRule
    const peers: BitcoinNoPeersRule
    const tip: BitcoinTipLagRule
    const models: ReadModelStore
    const engine: IncidentEngine
    const repo: Mirror.IncidentRepository
    const attempts: Notifications.AttemptRepository
    const notificationRules: seq<Notifications.Rule>
    ghost var log: seq<(Id, bool)>
    ghost var used: set<Id>

    ghost function Settings(): Config {
      Config(rpc.debounce, peers.debounce, tip.flatWindow, tip.debounceTicks, models.capacity, engine.kinds)
    }

    ghost function Value(): World
      reads this, rpc, peers, tip, models, engine, repo
    {
      World(rpc.state, peers.state, tip.state, models.Value(),
            Mirror.System(engine.openIncidents, repo.rows, log, used))
    }

    constructor (rpc: BitcoinRpcUnreachableRule, peers: BitcoinNoPeersRule, tip: BitcoinTipLagRule,
                 models: ReadModelStore, engine: IncidentEngine, repo: Mirror.IncidentRepository,
                 attempts: Notifications.AttemptRepository, notificationRules: seq<Notifications.Rule>)
      ensures this.rpc == rpc && this.peers == peers && this.tip == tip
      ensures this.models == models && this.engine == engine && this.repo == repo
      ensures this.attempts == attempts && this.notificationRules == notificationRules
      ensures log == [] && used == {}
    {
      this.rpc, this.peers, this.tip := rpc, peers, tip;
      this.models, this.engine, this.repo := models, engine, repo;
      this.attempts, this.notificationRules := attempts, notificationRules;
      log, used := [], {};
    }

    /** What fanning out `lifecycle` leaves of the rows the batch began with, and sends. */
    ghost function Fanned(rows: Notifications.Attempts, lifecycle: seq<LifecycleEvent>, fans: nat -> FanIo, now: Timestamp)
      : (Notifications.Attempts, seq<Notifications.Dispatch>)
      requires ValidFans(notificationRules, fans)
    {
      NotifyAll(notificationRules, rows, lifecycle, fans, now)
    }

    method ProcessBatch(b: Batch, fans: nat -> FanIo) returns (lifecycle: seq<LifecycleEvent>, sent: seq<Notifications.Dispatch>)
      requires ValidIo(b.io) && ValidFans(notificationRules, fans)
      modifies this, rpc, peers, tip, models, engine, repo, attempts
      ensures (Value(), lifecycle) == BatchStep(Settings(), old(Value()), b)
      ensures (attempts.rows, sent) == Fanned(old(attempts.rows), lifecycle, fans, b.now)
    {
      lifecycle, sent := [], [];
      var obs := ObservationsFromBatch(b.result);
      if |obs| == 0 {
        return;
      }
      var subject := obs[0].subject;
      var applied := AppendAndApply(obs, b.io.appendFailsAt);
      if !applied {
        return;
      }
      var drafts := EvaluateAll(Context(b.now, b.monotonicNow, subject, models.Value()));
      lifecycle, sent := RecordDrafts(drafts, b.now, b.io.ids, b.io.saves, fans);
    }

    /** Stops at the first observation that cannot be appended. */
    method AppendAndApply(obs: seq<Observation>, appendFailsAt: Option<nat>) returns (all: bool)
      modifies models
      ensures all <==> !(appendFailsAt.Some? && appendFailsAt.value < |obs|)
      ensures models.Value() == ApplyAll(models.capacity, old(models.Value()),
                                         if all then obs else obs[..appendFailsAt.value])
    {
      for i := 0 to |obs|
        invariant models.Value() == ApplyAll(models.capacity, old(models.Value()), obs[..i])
        invariant appendFailsAt.Some? ==> i <= appendFailsAt.value
      {
        if appendFailsAt == Some(i) {
          return false;
        }
        models.Apply(obs[i]);
        assert obs[..i + 1][..i] == obs[..i];
      }
      assert obs[..|obs|] == obs;
      return true;
    }

    method EvaluateAll(ctx: Context) returns (drafts: seq<Draft>)
      modifies rpc, peers, tip
      ensures (Value(), drafts) == EvaluateRules(Settings(), old(Value()), ctx)
    {
      drafts := rpc.Evaluate(ctx);
      var more := peers.Evaluate(ctx);
      drafts := drafts + more;
      more := tip.Evaluate(ctx);
      drafts := drafts + more;
    }

    method RecordDrafts(drafts: seq<Draft>, now: Timestamp, ids: seq<(Id, Id)>, saves: seq<seq<Mirror.SaveOutcome>>,
                        fans: nat -> FanIo) returns (lifecycle: seq<LifecycleEvent>, sent: seq<Notifications.Dispatch>)
      requires |drafts| <= |ids| && |drafts| <= |saves| && forall i :: 0 <= i < |saves| ==> |saves[i]| == 3
      requires ValidFans(notificationRules, fans)
      modifies this, models, engine, repo, attempts
      ensures (models.Value(), Value().system, lifecycle)
              == HandleDrafts(Settings(), old(models.Value()), old(Value().system), CommandsOf(drafts, now, ids), saves)
      ensures (attempts.rows, sent) == Fanned(old(attempts.rows), lifecycle, fans, now)
    {
      lifecycle, sent := [], [];
      ghost var cmds := CommandsOf(drafts, now, ids);
      for i := 0 to |drafts|
        invariant (models.Value(), Value().system, lifecycle)
                  == HandleDrafts(Settings(), old(models.Value()), old(Value().system), cmds[..i], saves)
        invariant (attempts.rows, sent) == Fanned(old(attempts.rows), lifecycle, fans, now)
      {
        HandleOneMore(Settings(), old(models.Value()), old(Value().system), cmds, saves, i);
        lifecycle, sent := RecordDraft(drafts[i], now, ids[i], saves[i], old(attempts.rows), lifecycle, sent, fans);
      }
      assert cmds[..|drafts|] == cmds;
    }

    ghost function Effect(lifecycle: seq<LifecycleEvent>): Effects
      reads this, models, repo
    {
      Effects(models.Value(), repo.rows, log, lifecycle)
    }

    /** One draft through the engine, then its events in order. `start` are the attempt rows the
        batch began with, `sofar` and `sentBefore` what it announced and sent before this draft. */
    method RecordDraft(draft: Draft, now: Timestamp, ids: (Id, Id), saves: seq<Mirror.SaveOutcome>,
                       ghost start: Notifications.Attempts, sofar: seq<LifecycleEvent>,
                       sentBefore: seq<Notifications.Dispatch>, fans: nat -> FanIo)
        returns (lifecycle: seq<LifecycleEvent>, sent: seq<Notifications.Dispatch>)
      requires |saves| == 3 && ValidFans(notificationRules, fans)
      requires (attempts.rows, sentBefore) == Fanned(start, sofar, fans, now)
      modifies this, models, engine, repo, attempts
      ensures var (m, system, said) := HandleDraft(Settings(), old(models.Value()), old(Value().system),
                                                   Command(draft, now, ids.0, ids.1), Mirror.Written(saves));
              models.Value() == m && Value().system == system && lifecycle == sofar + said
      ensures (attempts.rows, sent) == Fanned(start, lifecycle, fans, now)
    {
      lifecycle, sent := sofar, sentBefore;
      used := used + {ids.1};
      ghost var before := Effect(sofar);
      var outcome := engine.HandleRecordSignal(draft, now, ids.0, ids.1);
      var events := if outcome.Ok? then outcome.value else [];
      ghost var open := engine.openIncidents;
      for i := 0 to |events|
        invariant engine.openIncidents == open && used == old(used) + {ids.1}
        invariant Remaining(models.capacity, Effect(lifecycle), events[i..], Mirror.Written(saves))
                  == Remaining(models.capacity, before, events, Mirror.Written(saves))
        invariant (attempts.rows, sent) == Fanned(start, lifecycle, fans, now)
      {
        RemainingStep(models.capacity, Effect(lifecycle), events, i, Mirror.Written(saves));
        lifecycle, sent := ProcessEvent(events[i], now, saves, start, lifecycle, sent, fans);
      }
      assert events[|events|..] == [];
      NothingRemains(models.capacity, Effect(lifecycle), Mirror.Written(saves));
      assert Effect(lifecycle) == Remaining(models.capacity, before, events, Mirror.Written(saves));
    }

    method ProcessEvent(event: Event, now: Timestamp, saves: seq<Mirror.SaveOutcome>, ghost start: Notifications.Attempts,
                        sofar: seq<LifecycleEvent>, sentBefore: seq<Notifications.Dispatch>, fans: nat -> FanIo)
        returns (lifecycle: seq<LifecycleEvent>, sent: seq<Notifications.Dispatch>)
      requires |saves| == 3 && ValidFans(notificationRules, fans)
      requires (attempts.rows, sentBefore) == Fanned(start, sofar, fans, now)
      modifies this`log, models, repo, attempts
      ensures Effect(lifecycle) == AfterEvent(models.capacity, old(Effect(sofar)), event, Mirror.Written(saves))
      ensures (attempts.rows, sent) == Fanned(start, lifecycle, fans, now)
    {
      lifecycle, sent := sofar, sentBefore;
      match event {
        case SignalRecorded(observation) =>
          models.Apply(observation);
        case IncidentTouched(incident) =>
          var _, _ := Mirror.SaveIncidentWithRetry(repo, incident, saves);
          log := log + [(incident.id, Mirror.Written(saves))];
        case Lifecycle(e) =>
          var k := |lifecycle|;
          var dispatch := Notifications.DispatchLifecycle(e, k, notificationRules, attempts, fans(k).ids, fans(k).backendOk, now);
          lifecycle := lifecycle + [e];
          if dispatch.Some? {
            sent := sent + [dispatch.value];
          }
          NotifyOneMore(notificationRules, start, sofar, e, fans, now);
        case DraftBelowConfidenceFloor(_, _, _) =>
      }
    }
  }

  // ---- The event loop --------------------------------------------------------------------------

  datatype Effects = Effects(models: Models, rows: Mirror.Rows, log: seq<(Id, bool)>, lifecycle: seq<LifecycleEvent>)

  function AfterEvent(capacity: nat, e: Effects, event: Event, saved: bool): Effects {
    match event
    case SignalRecorded(observation) => e.(models := ApplyTo(capacity, e.models, observation))
    case IncidentTouched(incident) =>
      e.(rows := if saved then e.rows[incident.id := incident] else e.rows, log := e.log + [(incident.id, saved)])
    case Lifecycle(l) => e.(lifecycle := e.lifecycle + [l])
    case DraftBelowConfidenceFloor(_, _, _) => e
  }

  /** The effects once `events` are processed too. */
  function Remaining(capacity: nat, e: Effects, events: seq<Event>, saved: bool): Effects {
    Effects(ModelsAfter(capacity, e.models, events),
            Mirror.SaveAll(e.rows, Mirror.Touched(events), saved),
            e.log + Mirror.LogOf(Mirror.Touched(events), saved),
            e.lifecycle + LifecycleIn(events))
  }

  lemma NothingRemains(capacity: nat, e: Effects, saved: bool)
    ensures Remaining(capacity, e, [], saved) == e
  {
    assert Mirror.LogOf([], saved) == [];
  }

  lemma RemainingStep(capacity: nat, e: Effects, events: seq<Event>, i: nat, saved: bool)
    requires i < |events|
    ensures Remaining(capacity, e, events[i..], saved)
            == Remaining(capacity, AfterEvent(capacity, e, events[i], saved), events[i + 1..], saved)
  {
    var here, rest := events[i..], events[i + 1..];
    assert here[0] == events[i] && here[1..] == rest;
    if events[i].IncidentTouched? {
      var t := events[i].incident;
      var touched := Mirror.Touched(rest);
      assert Mirror.Touched(here) == [t] + touched && ([t] + touched)[1..] == touched;
      var later := Mirror.LogOf(touched, saved);
      assert Mirror.LogOf([t] + touched, saved) == [(t.id, saved)] + later;
      assert e.log + ([(t.id, saved)] + later) == e.log + [(t.id, saved)] + later;
    } else {
      assert Mirror.Touched(here) == Mirror.Touched(rest);
    }
    if events[i].Lifecycle? {
      assert e.lifecycle + ([events[i].event] + LifecycleIn(rest)) == e.lifecycle + [events[i].event] + LifecycleIn(rest);
    } else {
      assert LifecycleIn(here) == LifecycleIn(rest);
    }
  }
}

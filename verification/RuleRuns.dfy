/** What the consumer's runs do to the rules and the engine, told from the batches alone: each
    rule's table is a run of its machine over the batches that reach it, and the engine records
    exactly what those machines put out. */
module RuleRuns {
  import opened Types
  import opened Kinds
  import opened Engine
  import opened Hysteresis
  import opened ReadModels
  import opened TimedRules
  import opened TipLag
  import opened RuleInputs
  import opened Pipeline
  import opened Agreement
  import Mirror

  // ---- What a batch brings -------------------------------------------------------------------------

  function Brought(b: Batch): seq<Observation> {
    if b.result.ProbeOk? then b.result.observations else b.result.partialObservations
  }

  /** An append failed before the end. */
  predicate CutShort(b: Batch) {
    b.io.appendFailsAt.Some? && b.io.appendFailsAt.value < |Brought(b)|
  }

  function Applied(b: Batch): seq<Observation> {
    if CutShort(b) then Brought(b)[..b.io.appendFailsAt.value] else Brought(b)
  }

  /** The rules are evaluated, about a Bitcoin node: that of the first observation. */
  predicate Reaches(b: Batch) {
    Brought(b) != [] && !CutShort(b) && Brought(b)[0].subject.BitcoinNode?
  }

  function AllApplied(batches: seq<Batch>): seq<Observation> {
    if batches == [] then [] else AllApplied(batches[..|batches| - 1]) + Applied(batches[|batches| - 1])
  }

  // ---- What the rules see of a run ------------------------------------------------------------------

  function Subject(b: Batch): EntityRef
    requires Reaches(b)
  {
    Brought(b)[0].subject
  }

  ghost function RpcVisits(debounce: Duration, batches: seq<Batch>): seq<TimedVisit> {
    if batches == [] then []
    else
      var b := batches[|batches| - 1];
      RpcVisits(debounce, batches[..|batches| - 1])
      + if Reaches(b) then [Visit(Subject(b), RpcSeen(debounce, AllApplied(batches), Subject(b)), b.monotonicNow)] else []
  }

  ghost function PeersVisits(debounce: Duration, batches: seq<Batch>): seq<TimedVisit> {
    if batches == [] then []
    else
      var b := batches[|batches| - 1];
      PeersVisits(debounce, batches[..|batches| - 1])
      + if Reaches(b) then [Visit(Subject(b), PeersSeen(debounce, AllApplied(batches), Subject(b)), b.monotonicNow)] else []
  }

  ghost predicate TipReaches(batches: seq<Batch>) {
    batches != [] && Reaches(batches[|batches| - 1])
    && TipSeen(AllApplied(batches), Subject(batches[|batches| - 1])).Some?
  }

  ghost function TipVisits(batches: seq<Batch>): seq<TipVisit> {
    if batches == [] then []
    else
      var b := batches[|batches| - 1];
      TipVisits(batches[..|batches| - 1])
      + if TipReaches(batches) then [Visit(Subject(b), TipSeen(AllApplied(batches), Subject(b)).value, b.monotonicNow)] else []
  }

  const HOUR_NS: Duration := 3_600_000_000_000

  /** Bitcoin entries without an outstanding Active live for an hour, others for ever. */
  ghost function HourMachine(): Machine<Timer, Condition> {
    TimedMachine(Some(HOUR_NS), None)
  }

  /** The output of a run of `m` for the batch just processed, if the batch reached the rule. */
  function LastOut<E(!new), I(!new)>(m: Machine<E, I>, visits: seq<Visit<I>>, reached: bool): Option<SignalStatus> {
    if reached && visits != [] then Hysteresis.Run(m, visits).1[|visits| - 1] else None
  }

  /** What the three machines put out for the last batch, in rule order. */
  ghost function Outputs(cfg: Config, batches: seq<Batch>): seq<(string, Option<SignalStatus>)>
    requires batches != []
  {
    var reached := Reaches(batches[|batches| - 1]);
    [("bitcoin.rpc_unreachable", LastOut(HourMachine(), RpcVisits(cfg.rpcDebounce, batches), reached)),
     ("bitcoin.no_peers", LastOut(HourMachine(), PeersVisits(cfg.peersDebounce, batches), reached)),
     ("bitcoin.tip_lag_or_ibd_stalled",
      LastOut(TipMachine(cfg.flatWindow, cfg.ticks), TipVisits(batches), TipReaches(batches)))]
  }

  /** The drafts the outputs stand for. */
  function Drafts(outs: seq<(string, Option<SignalStatus>)>, subject: EntityRef): seq<Draft> {
    if outs == [] then []
    else
      var (kind, out) := outs[|outs| - 1];
      Drafts(outs[..|outs| - 1], subject)
      + match out
        case None => []
        case Some(status) =>
          [Draft(subject, kind + ".signal", kind, None, SignalSeverity.Critical, status, High, [])]
  }

  /** The commands of the last batch. */
  ghost function BatchDrafts(cfg: Config, batches: seq<Batch>): seq<Draft>
    requires batches != []
  {
    var b := batches[|batches| - 1];
    if Reaches(b) then Drafts(Outputs(cfg, batches), Subject(b)) else []
  }

  // ---- Every rule's table is a run of its machine --------------------------------------------------------

  /** The tables are runs of the machines, and the projections hold what was applied. */
  ghost predicate Told(cfg: Config, batches: seq<Batch>, w: World) {
    w.rpc == Hysteresis.Run(HourMachine(), RpcVisits(cfg.rpcDebounce, batches)).0
    && w.peers == Hysteresis.Run(HourMachine(), PeersVisits(cfg.peersDebounce, batches)).0
    && w.tip == Hysteresis.Run(TipMachine(cfg.flatWindow, cfg.ticks), TipVisits(batches)).0
    && HoldsStates(w.models, AllApplied(batches)) && HoldsHealths(w.models, AllApplied(batches))
  }

  lemma RunOneMore<E(!new), I(!new)>(m: Machine<E, I>, visits: seq<Visit<I>>, v: Visit<I>)
    ensures var (table, out) := Touch(m, Hysteresis.Run(m, visits).0, v.subject, v.input, v.at);
            Hysteresis.Run(m, visits + [v]) == (table, Hysteresis.Run(m, visits).1 + [out])
  {
    assert (visits + [v])[..|visits|] == visits;
  }

  lemma TimedRuleRuns(table: Table<Timer>, visits: seq<TimedVisit>, input: Option<Condition>, kind: string, ctx: Context)
    requires table == Hysteresis.Run(HourMachine(), visits).0
    ensures var visits' := visits + if input.Some? then [Visit(ctx.subject, input.value, ctx.monotonicNow)] else [];
            Evaluated(BITCOIN_MACHINE, table, input, kind, ctx, CRITICAL_HIGH)
            == (Hysteresis.Run(HourMachine(), visits').0,
                Drafts([(kind, LastOut(HourMachine(), visits', input.Some?))], ctx.subject))
  {
    assert BITCOIN_MACHINE == HourMachine();
    if input.Some? {
      RunOneMore(HourMachine(), visits, Visit(ctx.subject, input.value, ctx.monotonicNow));
    } else {
      assert visits + [] == visits;
    }
    OneOutput(kind, LastOut(HourMachine(), visits + if input.Some? then [Visit(ctx.subject, input.value, ctx.monotonicNow)] else [],
                            input.Some?), ctx.subject);
  }

  lemma TipRuleRuns(cfg: Config, table: Table<Tracker>, visits: seq<TipVisit>, ctx: Context)
    requires table == Hysteresis.Run(TipMachine(cfg.flatWindow, cfg.ticks), visits).0
    ensures var m, input := TipMachine(cfg.flatWindow, cfg.ticks), TipInput(ctx);
            var visits' := visits + if input.Some? then [Visit(ctx.subject, input.value, ctx.monotonicNow)] else [];
            EvaluatedTip(cfg.flatWindow, cfg.ticks, table, ctx)
            == (Hysteresis.Run(m, visits').0,
                Drafts([("bitcoin.tip_lag_or_ibd_stalled", LastOut(m, visits', input.Some?))], ctx.subject))
  {
    var m, input := TipMachine(cfg.flatWindow, cfg.ticks), TipInput(ctx);
    if input.Some? {
      RunOneMore(m, visits, Visit(ctx.subject, input.value, ctx.monotonicNow));
    } else {
      assert visits + [] == visits;
    }
    OneOutput("bitcoin.tip_lag_or_ibd_stalled",
              LastOut(m, visits + if input.Some? then [Visit(ctx.subject, input.value, ctx.monotonicNow)] else [], input.Some?),
              ctx.subject);
  }

  lemma OneOutput(kind: string, out: Option<SignalStatus>, subject: EntityRef)
    ensures Drafts([(kind, out)], subject) == DraftsFor(kind, subject, out, CRITICAL_HIGH)
  {
    assert [(kind, out)][..0] == [];
    assert Drafts([], subject) == [];
  }

  lemma ThreeOutputs(a: (string, Option<SignalStatus>), b: (string, Option<SignalStatus>), c: (string, Option<SignalStatus>), s: EntityRef)
    ensures Drafts([a, b, c], s) == Drafts([a], s) + Drafts([b], s) + Drafts([c], s)
  {
    assert [a, b, c][..2] == [a, b] && [a, b][..1] == [a];
    OneOutput(b.0, b.1, s);
    OneOutput(c.0, c.1, s);
  }

  /** The context the batch is evaluated in, on models `m`. */
  function ContextOf(b: Batch, m: Models): Context
    requires Brought(b) != []
  {
    Context(b.now, b.monotonicNow, Brought(b)[0].subject, m)
  }

  lemma RpcRuns(debounce: Duration, front: seq<Batch>, table: Table<Timer>, b: Batch, m: Models)
    requires Brought(b) != [] && !CutShort(b) && HoldsHealths(m, AllApplied(front + [b]))
    requires table == Hysteresis.Run(HourMachine(), RpcVisits(debounce, front)).0
    ensures var ctx, visits := ContextOf(b, m), RpcVisits(debounce, front + [b]);
            Evaluated(BITCOIN_MACHINE, table, RpcInput(debounce, ctx), BITCOIN_RPC_UNREACHABLE, ctx, CRITICAL_HIGH)
            == (Hysteresis.Run(HourMachine(), visits).0,
                Drafts([("bitcoin.rpc_unreachable", LastOut(HourMachine(), visits, Reaches(b)))], ctx.subject))
  {
    assert (front + [b])[..|front|] == front;
    RpcReads(debounce, ContextOf(b, m), AllApplied(front + [b]));
    TimedRuleRuns(table, RpcVisits(debounce, front), RpcInput(debounce, ContextOf(b, m)), BITCOIN_RPC_UNREACHABLE, ContextOf(b, m));
  }

  lemma PeersRuns(debounce: Duration, front: seq<Batch>, table: Table<Timer>, b: Batch, m: Models)
    requires Brought(b) != [] && !CutShort(b) && HoldsStates(m, AllApplied(front + [b]))
    requires table == Hysteresis.Run(HourMachine(), PeersVisits(debounce, front)).0
    ensures var ctx, visits := ContextOf(b, m), PeersVisits(debounce, front + [b]);
            Evaluated(BITCOIN_MACHINE, table, NoPeersInput(debounce, ctx), BITCOIN_NO_PEERS, ctx, CRITICAL_HIGH)
            == (Hysteresis.Run(HourMachine(), visits).0,
                Drafts([("bitcoin.no_peers", LastOut(HourMachine(), visits, Reaches(b)))], ctx.subject))
  {
    assert (front + [b])[..|front|] == front;
    PeersRead(debounce, ContextOf(b, m), AllApplied(front + [b]));
    TimedRuleRuns(table, PeersVisits(debounce, front), NoPeersInput(debounce, ContextOf(b, m)), BITCOIN_NO_PEERS, ContextOf(b, m));
  }

  lemma TipRuns(cfg: Config, front: seq<Batch>, table: Table<Tracker>, b: Batch, m: Models)
    requires Brought(b) != [] && !CutShort(b) && HoldsStates(m, AllApplied(front + [b]))
    requires table == Hysteresis.Run(TipMachine(cfg.flatWindow, cfg.ticks), TipVisits(front)).0
    ensures var ctx, visits, machine := ContextOf(b, m), TipVisits(front + [b]), TipMachine(cfg.flatWindow, cfg.ticks);
            EvaluatedTip(cfg.flatWindow, cfg.ticks, table, ctx)
            == (Hysteresis.Run(machine, visits).0,
                Drafts([("bitcoin.tip_lag_or_ibd_stalled", LastOut(machine, visits, TipReaches(front + [b])))], ctx.subject))
  {
    assert (front + [b])[..|front|] == front;
    TipReads(ContextOf(b, m), AllApplied(front + [b]));
    TipRuleRuns(cfg, table, TipVisits(front), ContextOf(b, m));
  }

  lemma JoinedDrafts(cfg: Config, batches: seq<Batch>, subject: EntityRef, d1: seq<Draft>, d2: seq<Draft>, d3: seq<Draft>)
    requires batches != [] && (Reaches(batches[|batches| - 1]) ==> subject == Subject(batches[|batches| - 1]))
    requires var outs := Outputs(cfg, batches);
             d1 == Drafts([outs[0]], subject) && d2 == Drafts([outs[1]], subject) && d3 == Drafts([outs[2]], subject)
    ensures d1 + d2 + d3 == BatchDrafts(cfg, batches)
  {
    var outs := Outputs(cfg, batches);
    if Reaches(batches[|batches| - 1]) {
      ThreeOutputs(outs[0], outs[1], outs[2], subject);
    } else {
      OneOutput(outs[0].0, None, subject);
      OneOutput(outs[1].0, None, subject);
      OneOutput(outs[2].0, None, subject);
    }
  }

  /** The evaluations of one batch, on the models that hold all its observations. */
  lemma RulesRun(cfg: Config, front: seq<Batch>, w: World, b: Batch)
    requires Brought(b) != [] && !CutShort(b)
    requires w.rpc == Hysteresis.Run(HourMachine(), RpcVisits(cfg.rpcDebounce, front)).0
    requires w.peers == Hysteresis.Run(HourMachine(), PeersVisits(cfg.peersDebounce, front)).0
    requires w.tip == Hysteresis.Run(TipMachine(cfg.flatWindow, cfg.ticks), TipVisits(front)).0
    requires HoldsStates(w.models, AllApplied(front + [b])) && HoldsHealths(w.models, AllApplied(front + [b]))
    ensures var batches := front + [b];
            var (w', drafts) := EvaluateRules(cfg, w, ContextOf(b, w.models));
            drafts == BatchDrafts(cfg, batches) && w'.models == w.models && w'.system == w.system
            && w'.rpc == Hysteresis.Run(HourMachine(), RpcVisits(cfg.rpcDebounce, batches)).0
            && w'.peers == Hysteresis.Run(HourMachine(), PeersVisits(cfg.peersDebounce, batches)).0
            && w'.tip == Hysteresis.Run(TipMachine(cfg.flatWindow, cfg.ticks), TipVisits(batches)).0
  {
    var ctx := ContextOf(b, w.models);
    RpcRuns(cfg.rpcDebounce, front, w.rpc, b, w.models);
    PeersRuns(cfg.peersDebounce, front, w.peers, b, w.models);
    TipRuns(cfg, front, w.tip, b, w.models);
    JoinedDrafts(cfg, front + [b], ctx.subject,
      Evaluated(BITCOIN_MACHINE, w.rpc, RpcInput(cfg.rpcDebounce, ctx), BITCOIN_RPC_UNREACHABLE, ctx, CRITICAL_HIGH).1,
      Evaluated(BITCOIN_MACHINE, w.peers, NoPeersInput(cfg.peersDebounce, ctx), BITCOIN_NO_PEERS, ctx, CRITICAL_HIGH).1,
      EvaluatedTip(cfg.flatWindow, cfg.ticks, w.tip, ctx).1);
  }

  // ---- Runs of batches ----------------------------------------------------------------------------------

  lemma BroughtIsObserved(b: Batch)
    ensures ObservationsFromBatch(b.result) == Brought(b)
  {
  }

  /** The commands a batch's drafts become. */
  function Stamped(drafts: seq<Draft>, b: Batch): seq<Command>
    requires |drafts| <= |b.io.ids|
  {
    seq(|drafts|, i requires 0 <= i < |drafts| => Command(drafts[i], b.now, b.io.ids[i].0, b.io.ids[i].1))
  }

  lemma AtMostThree(cfg: Config, batches: seq<Batch>)
    requires batches != []
    ensures |BatchDrafts(cfg, batches)| <= 3
  {
    var outs := Outputs(cfg, batches);
    if Reaches(batches[|batches| - 1]) {
      var s := Subject(batches[|batches| - 1]);
      ThreeOutputs(outs[0], outs[1], outs[2], s);
      OneOutput(outs[0].0, outs[0].1, s);
      OneOutput(outs[1].0, outs[1].1, s);
      OneOutput(outs[2].0, outs[2].1, s);
    }
  }

  function Announcements(outs: seq<Outcome>): seq<LifecycleEvent> {
    if outs == [] then []
    else Announcements(outs[..|outs| - 1]) + if outs[|outs| - 1].Ok? then LifecycleIn(outs[|outs| - 1].value) else []
  }

  lemma {:induction false} HandledIsRun(cfg: Config, m: Models, s: Mirror.System, cmds: seq<Command>, saves: seq<seq<Mirror.SaveOutcome>>)
    requires |cmds| <= |saves|
    ensures var (_, s', lifecycle) := HandleDrafts(cfg, m, s, cmds, saves);
            var (open, outs) := Engine.Run(cfg.kinds, s.open, cmds);
            s'.open == open && lifecycle == Announcements(outs)
    decreases |cmds|
  {
    if cmds != [] {
      var n := |cmds| - 1;
      HandledIsRun(cfg, m, s, cmds[..n], saves);
      var outs := Engine.Run(cfg.kinds, s.open, cmds[..n]).1;
      assert Engine.Run(cfg.kinds, s.open, cmds).1[..n] == outs;
    }
  }

  /** A batch that reaches no rule. */
  lemma NothingReached(cfg: Config, front: seq<Batch>, b: Batch)
    requires Brought(b) == [] || CutShort(b)
    ensures var batches := front + [b];
            RpcVisits(cfg.rpcDebounce, batches) == RpcVisits(cfg.rpcDebounce, front)
            && PeersVisits(cfg.peersDebounce, batches) == PeersVisits(cfg.peersDebounce, front)
            && TipVisits(batches) == TipVisits(front) && BatchDrafts(cfg, batches) == []
  {
    assert (front + [b])[..|front|] == front;
    assert RpcVisits(cfg.rpcDebounce, front) + [] == RpcVisits(cfg.rpcDebounce, front);
    assert PeersVisits(cfg.peersDebounce, front) + [] == PeersVisits(cfg.peersDebounce, front);
    assert TipVisits(front) + [] == TipVisits(front);
  }

  /** The engine and the announcements of a batch are those of its drafts, stamped. */
  ghost predicate HandedOver(cfg: Config, w: World, b: Batch, drafts: seq<Draft>)
    requires ValidIo(b.io) && |drafts| <= 3
  {
    var (w', lifecycle) := BatchStep(cfg, w, b);
    var (open, outs) := Engine.Run(cfg.kinds, w.system.open, Stamped(drafts, b));
    w'.system.open == open && lifecycle == Announcements(outs)
  }

  lemma IdleTold(cfg: Config, front: seq<Batch>, w: World, b: Batch)
    requires ValidIo(b.io) && Told(cfg, front, w) && (Brought(b) == [] || CutShort(b))
    ensures Told(cfg, front + [b], BatchStep(cfg, w, b).0) && BatchDrafts(cfg, front + [b]) == []
    ensures HandedOver(cfg, w, b, [])
  {
    assert (front + [b])[..|front|] == front;
    BroughtIsObserved(b);
    NothingReached(cfg, front, b);
    AppliedHolds(cfg.capacity, w.models, AllApplied(front), Applied(b));
    assert Stamped([], b) == [];
  }

  /** What `StepTold` says of a batch that is evaluated. */
  lemma EvaluatedTold(cfg: Config, front: seq<Batch>, w: World, b: Batch)
    requires KindsReady(cfg.kinds) && ValidIo(b.io) && Told(cfg, front, w) && Brought(b) != [] && !CutShort(b)
    ensures Told(cfg, front + [b], BatchStep(cfg, w, b).0)
    ensures |BatchDrafts(cfg, front + [b])| <= 3 && HandedOver(cfg, w, b, BatchDrafts(cfg, front + [b]))
  {
    var batches, m := front + [b], ApplyAll(cfg.capacity, w.models, Brought(b));
    assert batches[..|front|] == front && batches[|front|] == b;
    AtMostThree(cfg, batches);
    BroughtIsObserved(b);
    AppliedHolds(cfg.capacity, w.models, AllApplied(front), Brought(b));
    var w1 := w.(models := m);
    RulesRun(cfg, front, w1, b);
    RulesMoveFlags(cfg, w1, ContextOf(b, m), b.io.ids, Brought(b)[0].subject, BITCOIN_NO_PEERS);
    var cmds := CommandsOf(BatchDrafts(cfg, batches), b.now, b.io.ids);
    assert cmds == Stamped(BatchDrafts(cfg, batches), b);
    DraftsLeaveStates(cfg, m, w.system, cmds, b.io.saves, b.now);
    HandledIsRun(cfg, m, w.system, cmds, b.io.saves);
    SameStates(m, HandleDrafts(cfg, m, w.system, cmds, b.io.saves).0, AllApplied(batches));
  }

  lemma SameStates(m: Models, m': Models, obs: seq<Observation>)
    requires m'.state == m.state && m'.health == m.health && HoldsStates(m, obs) && HoldsHealths(m, obs)
    ensures HoldsStates(m', obs) && HoldsHealths(m', obs)
  {
    forall e, name ensures HoldsState(m', obs, e, name) {
      assert HoldsState(m, obs, e, name) && LatestState(m', e, name) == LatestState(m, e, name);
    }
    forall e, target ensures HoldsHealth(m', obs, e, target) {
      assert HoldsHealth(m, obs, e, target);
    }
  }

  /** One more batch: the tables stay runs, and the engine is handed the outputs of this one. */
  lemma StepTold(cfg: Config, front: seq<Batch>, w: World, b: Batch)
    requires KindsReady(cfg.kinds) && ValidIo(b.io) && Told(cfg, front, w)
    ensures Told(cfg, front + [b], BatchStep(cfg, w, b).0)
    ensures |BatchDrafts(cfg, front + [b])| <= 3 && HandedOver(cfg, w, b, BatchDrafts(cfg, front + [b]))
  {
    if Brought(b) == [] || CutShort(b) {
      IdleTold(cfg, front, w, b);
    } else {
      EvaluatedTold(cfg, front, w, b);
    }
  }

  /** The lifecycle events of the last batch of a run. */
  function LastLifecycle(cfg: Config, batches: seq<Batch>): seq<LifecycleEvent>
    requires ValidBatches(batches) && batches != []
  {
    BatchStep(cfg, RunBatches(cfg, batches[..|batches| - 1]), batches[|batches| - 1]).1
  }

  lemma {:induction false} RunTold(cfg: Config, batches: seq<Batch>)
    requires KindsReady(cfg.kinds) && ValidBatches(batches)
    ensures Told(cfg, batches, RunBatches(cfg, batches))
    decreases |batches|
  {
    if batches != [] {
      var front, b := batches[..|batches| - 1], batches[|batches| - 1];
      assert batches == front + [b];
      RunTold(cfg, front);
      StepTold(cfg, front, RunBatches(cfg, front), b);
    }
  }

  /** Over any run of batches from an empty start, each of the three rule tables is a run of that
      rule's machine over the batches that reach it - not empty, appended in full, about a Bitcoin
      node, and for the tip rule with both states known - each a visit by the first observation's
      subject, at the batch's monotonic time, on what all observations applied so far say. */
  lemma TablesAreRuns(cfg: Config, user: seq<KindEntry>, batches: seq<Batch>)
    requires Loaded(DEFAULT_KINDS, user, cfg.kinds) && ValidBatches(batches)
    ensures var w := RunBatches(cfg, batches);
            w.rpc == Hysteresis.Run(HourMachine(), RpcVisits(cfg.rpcDebounce, batches)).0
            && w.peers == Hysteresis.Run(HourMachine(), PeersVisits(cfg.peersDebounce, batches)).0
            && w.tip == Hysteresis.Run(TipMachine(cfg.flatWindow, cfg.ticks), TipVisits(batches)).0
  {
    LoadedKindsAreReady(user, cfg.kinds);
    RunTold(cfg, batches);
  }

  /** All the commands of a run. */
  ghost function AllCommands(cfg: Config, batches: seq<Batch>): seq<Command>
    requires ValidBatches(batches)
  {
    if batches == [] then []
    else
      AtMostThree(cfg, batches);
      AllCommands(cfg, batches[..|batches| - 1]) + Stamped(BatchDrafts(cfg, batches), batches[|batches| - 1])
  }

  lemma {:induction false} RunAppend(kinds: Registry, open: OpenMap, a: seq<Command>, c: seq<Command>)
    ensures Engine.Run(kinds, open, a + c).0 == Engine.Run(kinds, Engine.Run(kinds, open, a).0, c).0
    decreases |c|
  {
    if c == [] {
      assert a + c == a;
    } else {
      var n := |c| - 1;
      RunAppend(kinds, open, a, c[..n]);
      assert (a + c)[..|a + c| - 1] == a + c[..n];
    }
  }

  /** What the engine says to the drafts of the last batch. */
  ghost function LastAnswers(cfg: Config, batches: seq<Batch>): seq<Outcome>
    requires ValidBatches(batches) && batches != []
  {
    AtMostThree(cfg, batches);
    Engine.Run(cfg.kinds, RunBatches(cfg, batches[..|batches| - 1]).system.open,
               Stamped(BatchDrafts(cfg, batches), batches[|batches| - 1])).1
  }

  lemma {:induction false} EngineOfRun(cfg: Config, batches: seq<Batch>)
    requires KindsReady(cfg.kinds) && ValidBatches(batches)
    ensures RunBatches(cfg, batches).system.open == Engine.Run(cfg.kinds, map[], AllCommands(cfg, batches)).0
    ensures batches != [] ==> LastLifecycle(cfg, batches) == Announcements(LastAnswers(cfg, batches))
    decreases |batches|
  {
    if batches != [] {
      var front, b := batches[..|batches| - 1], batches[|batches| - 1];
      assert batches == front + [b];
      EngineOfRun(cfg, front);
      RunTold(cfg, front);
      StepTold(cfg, front, RunBatches(cfg, front), b);
      RunAppend(cfg.kinds, map[], AllCommands(cfg, front), Stamped(BatchDrafts(cfg, batches), b));
    }
  }

  /** The engine of a run is the engine alone fed the machines' outputs as drafts - Critical, High,
      about the batch's subject, at the batch's time - and each batch announces exactly what the
      engine says to its own. */
  lemma EngineFollowsOutputs(cfg: Config, user: seq<KindEntry>, batches: seq<Batch>)
    requires Loaded(DEFAULT_KINDS, user, cfg.kinds) && ValidBatches(batches)
    ensures RunBatches(cfg, batches).system.open == Engine.Run(cfg.kinds, map[], AllCommands(cfg, batches)).0
    ensures batches != [] ==> LastLifecycle(cfg, batches) == Announcements(LastAnswers(cfg, batches))
  {
    LoadedKindsAreReady(user, cfg.kinds);
    EngineOfRun(cfg, batches);
  }

  // ---- Outputs are announced ------------------------------------------------------------------------------

  /** Where the draft of output `k` is, and that no other draft is of its kind. */
  lemma {:induction false} DraftAt(outs: seq<(string, Option<SignalStatus>)>, k: nat, s: EntityRef) returns (i: nat)
    requires k < |outs| && outs[k].1.Some?
    requires forall a, b :: 0 <= a < b < |outs| ==> outs[a].0 != outs[b].0
    ensures i < |Drafts(outs, s)|
    ensures Drafts(outs, s)[i] == Draft(s, outs[k].0 + ".signal", outs[k].0, None, SignalSeverity.Critical, outs[k].1.value, High, [])
    ensures forall j :: 0 <= j < |Drafts(outs, s)| && j != i ==> Drafts(outs, s)[j].kind != outs[k].0
    decreases |outs|
  {
    var front := outs[..|outs| - 1];
    if k < |front| {
      i := DraftAt(front, k, s);
    } else {
      i := |Drafts(front, s)|;
      KindsOfDrafts(front, s);
    }
  }

  ghost predicate HasKind(outs: seq<(string, Option<SignalStatus>)>, kind: string) {
    exists a :: 0 <= a < |outs| && outs[a].0 == kind
  }

  lemma {:induction false} KindsOfDrafts(outs: seq<(string, Option<SignalStatus>)>, s: EntityRef)
    ensures forall j :: 0 <= j < |Drafts(outs, s)| ==> HasKind(outs, Drafts(outs, s)[j].kind)
    decreases |outs|
  {
    if outs != [] {
      var n := |outs| - 1;
      var front := outs[..n];
      KindsOfDrafts(front, s);
      forall j | 0 <= j < |Drafts(outs, s)| ensures HasKind(outs, Drafts(outs, s)[j].kind) {
        if j < |Drafts(front, s)| {
          assert HasKind(front, Drafts(front, s)[j].kind);
          var a :| 0 <= a < |front| && front[a].0 == Drafts(front, s)[j].kind;
          assert outs[a].0 == Drafts(outs, s)[j].kind;
        } else {
          assert outs[n].0 == Drafts(outs, s)[j].kind;
        }
      }
    }
  }

  /** The outcome of the only command about its fingerprint is what the fingerprint's slot gives. */
  lemma {:induction false} LoneCommand(kinds: Registry, open: OpenMap, cmds: seq<Command>, i: nat)
    requires i < |cmds|
    requires forall j :: 0 <= j < |cmds| && j != i ==> FingerprintOf(cmds[j].draft) != FingerprintOf(cmds[i].draft)
    ensures Engine.Run(kinds, open, cmds).1[i] == Record(kinds, open, cmds[i]).1
    decreases |cmds|
  {
    var n := |cmds| - 1;
    var front := cmds[..n];
    if i < n {
      LoneCommand(kinds, open, front, i);
    } else {
      OthersLeaveSlot(kinds, open, front, FingerprintOf(cmds[i].draft));
      RecordIsLocal(kinds, open, Engine.Run(kinds, open, front).0, cmds[i], FingerprintOf(cmds[i].draft));
    }
  }

  lemma {:induction false} OthersLeaveSlot(kinds: Registry, open: OpenMap, cmds: seq<Command>, fp: Fingerprint)
    requires forall j :: 0 <= j < |cmds| ==> FingerprintOf(cmds[j].draft) != fp
    ensures Lookup(Engine.Run(kinds, open, cmds).0, fp) == Lookup(open, fp)
    decreases |cmds|
  {
    if cmds != [] {
      var front := cmds[..|cmds| - 1];
      OthersLeaveSlot(kinds, open, front, fp);
      RecordIsLocal(kinds, Engine.Run(kinds, open, front).0, open, cmds[|cmds| - 1], fp);
    }
  }

  lemma {:induction false} AnnouncedIn(outs: seq<Outcome>, i: nat, e: LifecycleEvent)
    requires i < |outs| && outs[i].Ok? && e in LifecycleIn(outs[i].value)
    ensures e in Announcements(outs)
    decreases |outs|
  {
    if i < |outs| - 1 {
      AnnouncedIn(outs[..|outs| - 1], i, e);
    }
  }

  /** What a rule's draft makes the engine announce. */
  lemma DraftIsAnnounced(kinds: Registry, open: OpenMap, c: Command) returns (e: LifecycleEvent)
    requires KindsReady(kinds) && IsBitcoinKind(c.draft.kind) && c.draft.subject.BitcoinNode? && c.draft.dimension.None?
    requires c.draft.confidence == High && c.draft.severity == SignalSeverity.Critical
    requires c.draft.status == Active <==> FingerprintOf(c.draft) !in open
    ensures var out := Record(kinds, open, c).1; out.Ok? && e in LifecycleIn(out.value)
    ensures Announces(e, c, open)
  {
    assert BitcoinKind(kinds[c.draft.kind]);
    assert SubjectKind(c.draft.subject) == kinds[c.draft.kind].allowedSubjects[0];
    var out := Record(kinds, open, c).1;
    LifecycleInSteps(out.value);
    e := out.value[2].event;
  }

  /** `e` opens the incident `c` asks for, or resolves the one it clears. */
  predicate Announces(e: LifecycleEvent, c: Command, open: OpenMap) {
    var fp, i := FingerprintOf(c.draft), e.incident;
    if fp in open then
      e.ResolvedEvent? && i.id == open[fp].id && i.status == Resolved && i.resolvedAt == Some(c.now)
    else
      e.Opened? && i.id == c.incidentId && i.fingerprint == fp && i.severity == IncidentSeverity.Critical
      && i.status == Open && i.openedAt == c.now && i.summary == c.draft.signal
  }

  lemma OutputsDiffer(cfg: Config, batches: seq<Batch>)
    requires batches != []
    ensures OfDifferentKinds(Outputs(cfg, batches))
  {
    KindsDiffer();
  }

  ghost predicate OfDifferentKinds(outs: seq<(string, Option<SignalStatus>)>) {
    (forall a :: 0 <= a < |outs| ==> IsBitcoinKind(outs[a].0))
    && forall a, b :: 0 <= a < b < |outs| ==> outs[a].0 != outs[b].0
  }

  /** Output `k` is Active for a closed incident of `s`, or Cleared for an open one. */
  predicate News(outs: seq<(string, Option<SignalStatus>)>, k: nat, open: OpenMap, s: EntityRef)
    requires k < |outs|
  {
    outs[k].1.Some? && (outs[k].1.value == Active <==> Fingerprint(s, outs[k].0, None) !in open)
  }

  /** Among the drafts of several rules about one node, each is announced as if it were alone. */
  lemma DraftsAreAnnounced(kinds: Registry, open: OpenMap, outs: seq<(string, Option<SignalStatus>)>, s: EntityRef, b: Batch, k: nat)
      returns (e: LifecycleEvent, c: Command)
    requires KindsReady(kinds) && s.BitcoinNode? && k < |outs| && |Drafts(outs, s)| <= |b.io.ids|
    requires OfDifferentKinds(outs) && News(outs, k, open, s)
    ensures e in Announcements(Engine.Run(kinds, open, Stamped(Drafts(outs, s), b)).1) && Announces(e, c, open)
    ensures c.now == b.now && c.draft.signal == outs[k].0 + ".signal" && FingerprintOf(c.draft) == Fingerprint(s, outs[k].0, None)
  {
    var i := DraftAt(outs, k, s);
    var cmds := Stamped(Drafts(outs, s), b);
    c := cmds[i];
    LoneCommand(kinds, open, cmds, i);
    e := DraftIsAnnounced(kinds, open, c);
    AnnouncedIn(Engine.Run(kinds, open, cmds).1, i, e);
  }

  lemma LastLifecycleOf(cfg: Config, batches: seq<Batch>)
    requires KindsReady(cfg.kinds) && ValidBatches(batches) && batches != [] && Reaches(batches[|batches| - 1])
    ensures var b, open := batches[|batches| - 1], RunBatches(cfg, batches[..|batches| - 1]).system.open;
            |Drafts(Outputs(cfg, batches), Subject(b))| <= |b.io.ids|
            && LastLifecycle(cfg, batches)
               == Announcements(Engine.Run(cfg.kinds, open, Stamped(Drafts(Outputs(cfg, batches), Subject(b)), b)).1)
  {
    EngineOfRun(cfg, batches);
    AtMostThree(cfg, batches);
  }

  /** `DraftsAreAnnounced` for the batch's own subject and lifecycle events. */
  lemma NewsInLifecycle(kinds: Registry, open: OpenMap, outs: seq<(string, Option<SignalStatus>)>, b: Batch, k: nat,
                        lifecycle: seq<LifecycleEvent>) returns (e: LifecycleEvent, c: Command)
    requires KindsReady(kinds) && Reaches(b) && k < |outs| && OfDifferentKinds(outs) && News(outs, k, open, Subject(b))
    requires |Drafts(outs, Subject(b))| <= |b.io.ids|
    requires lifecycle == Announcements(Engine.Run(kinds, open, Stamped(Drafts(outs, Subject(b)), b)).1)
    ensures e in lifecycle && Announces(e, c, open) && Carries(c, b, outs[k].0)
  {
    e, c := DraftsAreAnnounced(kinds, open, outs, Subject(b), b, k);
  }

  /** `c` is a command of the batch's time and subject, of kind `kind`. */
  predicate Carries(c: Command, b: Batch, kind: string)
    requires Reaches(b)
  {
    c.now == b.now && c.draft.signal == kind + ".signal" && FingerprintOf(c.draft) == Fingerprint(Subject(b), kind, None)
  }

  /** The lifecycle events tell the news of output `k`, if it is news. */
  ghost predicate TellsNews(lifecycle: seq<LifecycleEvent>, open: OpenMap, outs: seq<(string, Option<SignalStatus>)>, k: nat, b: Batch)
    requires k < |outs| && Reaches(b)
  {
    News(outs, k, open, Subject(b)) ==> exists e, c :: e in lifecycle && Announces(e, c, open) && Carries(c, b, outs[k].0)
  }

  lemma NewsIsTold(kinds: Registry, open: OpenMap, outs: seq<(string, Option<SignalStatus>)>, b: Batch, k: nat,
                   lifecycle: seq<LifecycleEvent>)
    requires KindsReady(kinds) && Reaches(b) && k < |outs| && OfDifferentKinds(outs) && |Drafts(outs, Subject(b))| <= |b.io.ids|
    requires lifecycle == Announcements(Engine.Run(kinds, open, Stamped(Drafts(outs, Subject(b)), b)).1)
    ensures TellsNews(lifecycle, open, outs, k, b)
  {
    if News(outs, k, open, Subject(b)) {
      var e, c := NewsInLifecycle(kinds, open, outs, b, k, lifecycle);
    }
  }

  /** When a machine puts out Active for a node whose incident is closed, or Cleared for one whose
      incident is open, the batch announces it: opened, Critical, at the batch's time; or resolved,
      at the batch's time. */
  lemma OutputIsAnnounced(cfg: Config, user: seq<KindEntry>, batches: seq<Batch>, k: nat)
    requires Loaded(DEFAULT_KINDS, user, cfg.kinds) && ValidBatches(batches) && batches != [] && k < 3
    ensures var b := batches[|batches| - 1];
            Reaches(b) ==>
              TellsNews(LastLifecycle(cfg, batches), RunBatches(cfg, batches[..|batches| - 1]).system.open, Outputs(cfg, batches), k, b)
  {
    var b := batches[|batches| - 1];
    if Reaches(b) {
      LoadedKindsAreReady(user, cfg.kinds);
      OutputsDiffer(cfg, batches);
      LastLifecycleOf(cfg, batches);
      NewsIsTold(cfg.kinds, RunBatches(cfg, batches[..|batches| - 1]).system.open, Outputs(cfg, batches), b, k,
                 LastLifecycle(cfg, batches));
    }
  }
}

/** How the Bitcoin Core collector assembles one poll, and what that means for the rule that
    watches for an unreachable node. */
module Collector {
  import opened Types
  import opened Hysteresis
  import opened ReadModels
  import opened TimedRules
  import opened Pipeline
  import opened Kinds
  import Agreement
  import Mirror

  /** One of the four concurrent calls: when it started, and the state it gave unless it failed. */
  datatype Reply = Reply(startedAt: Timestamp, state: Option<StateObservation>)

  function Reported(node: string, target: string, r: Reply, ids: (Id, Id)): seq<Observation> {
    match r.state
    case None => []
    case Some(s) =>
      [Observation(ids.0, r.startedAt, BitcoinNode(node), State(s)),
       Observation(ids.1, r.startedAt, BitcoinNode(node), Health(HealthCheck(target, HealthOk)))]
  }

  /** What the replies from position `i` on add to the batch, in the fixed order of the targets. */
  function ReportedFrom(node: string, replies: seq<Reply>, ids: seq<(Id, Id)>, i: nat): seq<Observation>
    requires |replies| == |ids| == |RPC_TARGETS| && i <= |replies|
    decreases |replies| - i
  {
    if i == |replies| then []
    else Reported(node, RPC_TARGETS[i], replies[i], ids[i]) + ReportedFrom(node, replies, ids, i + 1)
  }

  /** The four calls, in the order they are reported. */
  function CallNames(): seq<string> {
    ["bitcoin.rpc.getblockchaininfo", "bitcoin.rpc.getmempoolinfo", "bitcoin.rpc.getnetworkinfo", "bitcoin.rpc.getpeerinfo"]
  }

  /** How many of the first `n` calls were answered. */
  function Answered(replies: seq<Reply>, n: nat): nat
    requires n <= |replies|
  {
    if n == 0 then 0 else Answered(replies, n - 1) + if replies[n - 1].state.Some? then 1 else 0
  }

  /** From position `p`: the state the call gave, then the report that it is well. */
  predicate ReportedAt(obs: seq<Observation>, p: nat, node: string, target: string, r: Reply, ids: (Id, Id))
    requires r.state.Some?
  {
    p + 1 < |obs|
    && obs[p].id == ids.0 && obs[p].observedAt == r.startedAt && obs[p].subject == BitcoinNode(node)
    && obs[p].payload == State(r.state.value)
    && obs[p + 1].id == ids.1 && obs[p + 1].observedAt == r.startedAt && obs[p + 1].subject == BitcoinNode(node)
    && obs[p + 1].payload.Health? && obs[p + 1].payload.health.target == target && obs[p + 1].payload.health.status == HealthOk
  }

  lemma FourAnswers(node: string, replies: seq<Reply>, ids: seq<(Id, Id)>)
    requires |replies| == |ids| == |RPC_TARGETS|
    ensures var obs := ReportedFrom(node, replies, ids, 0);
            |obs| == 2 * Answered(replies, 4)
            && forall i :: 0 <= i < 4 && replies[i].state.Some? ==>
                 ReportedAt(obs, 2 * Answered(replies, i), node, CallNames()[i], replies[i], ids[i])
  {
    FourReports(node, replies, ids);
    assert Answered(replies, 0) == 0;
    assert Answered(replies, 2) == Answered(replies, 1) + if replies[1].state.Some? then 1 else 0;
    assert Answered(replies, 3) == Answered(replies, 2) + if replies[2].state.Some? then 1 else 0;
    assert Answered(replies, 4) == Answered(replies, 3) + if replies[3].state.Some? then 1 else 0;
    assert RPC_TARGETS == CallNames();
  }

  lemma FourReports(node: string, replies: seq<Reply>, ids: seq<(Id, Id)>)
    requires |replies| == |ids| == |RPC_TARGETS|
    ensures ReportedFrom(node, replies, ids, 0)
            == Reported(node, RPC_TARGETS[0], replies[0], ids[0]) + Reported(node, RPC_TARGETS[1], replies[1], ids[1])
               + Reported(node, RPC_TARGETS[2], replies[2], ids[2]) + Reported(node, RPC_TARGETS[3], replies[3], ids[3])
  {
    var r0, r1 := Reported(node, RPC_TARGETS[0], replies[0], ids[0]), Reported(node, RPC_TARGETS[1], replies[1], ids[1]);
    var r2, r3 := Reported(node, RPC_TARGETS[2], replies[2], ids[2]), Reported(node, RPC_TARGETS[3], replies[3], ids[3]);
    assert ReportedFrom(node, replies, ids, 4) == [];
    assert ReportedFrom(node, replies, ids, 3) == r3;
    assert ReportedFrom(node, replies, ids, 2) == r2 + r3;
    assert ReportedFrom(node, replies, ids, 1) == r1 + (r2 + r3);
    assert r0 + (r1 + (r2 + r3)) == r0 + r1 + r2 + r3;
  }

  /** The batch succeeds iff every call did; otherwise the first failure in target order gives
      the health check. Every successful call is reported either way. */
  method Poll(node: string, replies: seq<Reply>, ids: seq<(Id, Id)>) returns (r: ProbeResult)
    requires |replies| == |ids| == |RPC_TARGETS|
    ensures var obs := if r.ProbeOk? then r.observations else r.partialObservations;
            obs == ReportedFrom(node, replies, ids, 0) && |obs| == 2 * Answered(replies, 4)
            && forall i :: 0 <= i < 4 && replies[i].state.Some? ==>
                 ReportedAt(obs, 2 * Answered(replies, i), node, CallNames()[i], replies[i], ids[i])
    ensures r.ProbeOk? <==> forall i :: 0 <= i < 4 ==> replies[i].state.Some?
    ensures r.ProbeFailed? ==>
              exists i :: 0 <= i < 4 && replies[i].state.None? && (forall j :: 0 <= j < i ==> replies[j].state.Some?)
                          && r.health == HealthCheck(CallNames()[i], HealthCritical)
  {
    var partials: seq<Observation> := [];
    var firstFailure: Option<string> := None;
    partials, firstFailure := AddReply(node, RPC_TARGETS[0], replies[0], ids[0], partials, firstFailure);
    partials, firstFailure := AddReply(node, RPC_TARGETS[1], replies[1], ids[1], partials, firstFailure);
    partials, firstFailure := AddReply(node, RPC_TARGETS[2], replies[2], ids[2], partials, firstFailure);
    partials, firstFailure := AddReply(node, RPC_TARGETS[3], replies[3], ids[3], partials, firstFailure);
    FourReports(node, replies, ids);
    FourAnswers(node, replies, ids);
    assert [] + Reported(node, RPC_TARGETS[0], replies[0], ids[0]) == Reported(node, RPC_TARGETS[0], replies[0], ids[0]);
    if firstFailure.Some? {
      return ProbeFailed(HealthCheck(firstFailure.value, HealthCritical), partials);
    }
    return ProbeOk(partials);
  }

  method AddReply(node: string, target: string, reply: Reply, ids: (Id, Id), partials: seq<Observation>,
                firstFailure: Option<string>) returns (partials': seq<Observation>, firstFailure': Option<string>)
    ensures partials' == partials + Reported(node, target, reply, ids)
    ensures firstFailure' == if firstFailure.Some? || reply.state.Some? then firstFailure else Some(target)
  {
    partials', firstFailure' := partials, firstFailure;
    match reply.state
    case Some(s) =>
      partials' := partials' + [Observation(ids.0, reply.startedAt, BitcoinNode(node), State(s))];
      partials' := partials' + [Observation(ids.1, reply.startedAt, BitcoinNode(node), Health(HealthCheck(target, HealthOk)))];
      assert partials' == partials + Reported(node, target, reply, ids);
    case None =>
      if firstFailure.None? {
        firstFailure' := Some(target);
      }
  }

  // ---- Nothing critical reaches the read model ----------------------------------------------------

  /** `r` is what some poll of some Bitcoin node returns. */
  ghost predicate FromPoll(r: ProbeResult) {
    exists node, replies, ids ::
      |replies| == |ids| == |RPC_TARGETS| && ObservationsFromBatch(r) == ReportedFrom(node, replies, ids, 0)
  }

  predicate NothingCritical(obs: seq<Observation>) {
    forall i :: 0 <= i < |obs| && obs[i].payload.Health? ==> obs[i].payload.health.status != HealthCritical
  }

  lemma {:induction false} ReportsAreNotCritical(node: string, replies: seq<Reply>, ids: seq<(Id, Id)>, i: nat)
    requires |replies| == |ids| == |RPC_TARGETS| && i <= |replies|
    ensures NothingCritical(ReportedFrom(node, replies, ids, i))
    decreases |replies| - i
  {
    if i < |replies| {
      ReportsAreNotCritical(node, replies, ids, i + 1);
    }
  }

  ghost predicate CalmModels(m: Models) {
    forall k :: k in m.health ==> m.health[k].value.status != HealthCritical
  }

  lemma {:induction false} AppliedStaysCalm(capacity: nat, m: Models, obs: seq<Observation>)
    requires CalmModels(m) && NothingCritical(obs)
    ensures CalmModels(ApplyAll(capacity, m, obs))
    decreases |obs|
  {
    if obs != [] {
      AppliedStaysCalm(capacity, m, obs[..|obs| - 1]);
    }
  }

  lemma CalmBatch(cfg: Config, w: World, b: Batch, s: EntityRef)
    requires Agreement.KindsReady(cfg.kinds) && ValidIo(b.io) && FromPoll(b.result)
    requires CalmModels(w.models) && !ActiveIn(BITCOIN_MACHINE, w.rpc, s)
    ensures var w' := BatchStep(cfg, w, b).0; CalmModels(w'.models) && !ActiveIn(BITCOIN_MACHINE, w'.rpc, s)
  {
    var obs := ObservationsFromBatch(b.result);
    var node, replies, ids :| |replies| == |ids| == |RPC_TARGETS| && obs == ReportedFrom(node, replies, ids, 0);
    ReportsAreNotCritical(node, replies, ids, 0);
    if obs != [] {
      if b.io.appendFailsAt.Some? && b.io.appendFailsAt.value < |obs| {
        AppliedStaysCalm(cfg.capacity, w.models, obs[..b.io.appendFailsAt.value]);
      } else {
        AppliedStaysCalm(cfg.capacity, w.models, obs);
        var w1 := w.(models := ApplyAll(cfg.capacity, w.models, obs));
        var ctx := Context(b.now, b.monotonicNow, obs[0].subject, w1.models);
        CalmEvaluation(cfg, w1, ctx, s);
        Agreement.RulesMoveFlags(cfg, w1, ctx, b.io.ids, s, BITCOIN_RPC_UNREACHABLE);
        var cmds := CommandsOf(EvaluateRules(cfg, w1, ctx).1, b.now, b.io.ids);
        Agreement.DraftsLeaveStates(cfg, w1.models, w1.system, cmds, b.io.saves, b.now);
      }
    }
  }

  lemma CalmEvaluation(cfg: Config, w: World, ctx: Context, s: EntityRef)
    requires CalmModels(ctx.models) && !ActiveIn(BITCOIN_MACHINE, w.rpc, s)
    ensures !ActiveIn(BITCOIN_MACHINE, EvaluateRules(cfg, w, ctx).0.rpc, s)
  {
    assert CurrentHealth(ctx.models, ctx.subject, RPC_TARGETS[0]) != Some(HealthCritical);
    if ctx.subject.BitcoinNode? {
      TouchTimed(Some(STATE_RETENTION), None, w.rpc, ctx.subject, NotFiring, ctx.monotonicNow);
    }
  }

  lemma {:induction false} CalmRun(cfg: Config, batches: seq<Batch>, s: EntityRef)
    requires Agreement.KindsReady(cfg.kinds) && Agreement.ValidBatches(batches)
    requires forall i :: 0 <= i < |batches| ==> FromPoll(batches[i].result)
    ensures var w := Agreement.RunBatches(cfg, batches); CalmModels(w.models) && !ActiveIn(BITCOIN_MACHINE, w.rpc, s)
    decreases |batches|
  {
    if batches != [] {
      var n := |batches| - 1;
      CalmRun(cfg, batches[..n], s);
      CalmBatch(cfg, Agreement.RunBatches(cfg, batches[..n]), batches[n], s);
    }
  }

  /** The health check of a failed poll stays in the batch: the consumer forwards only the
      partial observations. So over any run fed by this collector alone the unreachable-node
      rule never raises its flag and no such incident is ever open - not even when every call
      of every poll fails. */
  lemma UnreachableNodeStaysSilent(cfg: Config, user: seq<KindEntry>, batches: seq<Batch>, s: EntityRef)
    requires Loaded(DEFAULT_KINDS, user, cfg.kinds)
    requires Agreement.ValidBatches(batches) && forall i :: 0 <= i < |batches| ==> FromPoll(batches[i].result)
    ensures var w := Agreement.RunBatches(cfg, batches);
            CalmModels(w.models) && !ActiveIn(BITCOIN_MACHINE, w.rpc, s)
            && !Agreement.IncidentOpen(w.system, s, BITCOIN_RPC_UNREACHABLE)
  {
    Agreement.LoadedKindsAreReady(user, cfg.kinds);
    CalmRun(cfg, batches, s);
    Agreement.ThreeWayAgreement(cfg, user, batches, s, BITCOIN_RPC_UNREACHABLE);
  }
}

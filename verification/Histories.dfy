/** Histories of the deployed program: batches, retention sweeps, crashes and restarts. */
module Histories {
  import opened Types
  import opened Kinds
  import opened Engine
  import opened ReadModels
  import opened TimedRules
  import opened Pipeline
  import opened Agreement
  import Mirror

  datatype Happening =
    | Consume(batch: Batch)
    | Sweep(cutoff: Timestamp)
    | Restart(listing: seq<Incident>)

  /** A restart begins with fresh rules and read models and the open incidents read back; only
      the stored rows survive it. */
  ghost predicate Follows(cfg: Config, w: World, h: Happening, w': World) {
    match h
    case Consume(b) => FreshIds(b, w.system.used) && w' == BatchStep(cfg, w, b).0
    case Sweep(cutoff) => w' == w.(system := w.system.(rows := Mirror.Swept(w.system.rows, cutoff)))
    case Restart(listing) =>
      Mirror.IsOpenListing(w.system.rows, listing) && DistinctFingerprints(listing)
      && IsRebuilt(listing, w'.system.open)
      && w' == START.(system := w.system.(open := w'.system.open, log := []))
  }

  ghost predicate IsHistory(cfg: Config, worlds: seq<World>, events: seq<Happening>) {
    |worlds| == |events| + 1 && worlds[0] == START
    && forall i :: 0 <= i < |events| ==> Follows(cfg, worlds[i], events[i], worlds[i + 1])
  }

  // ---- The mirror inside the pipeline -----------------------------------------------------------------------------

  /** The incident ids drawn for a batch are new. */
  predicate FreshIds(b: Batch, used: set<Id>) {
    ValidIo(b.io) && (forall i :: 0 <= i < 3 ==> b.io.ids[i].1 !in used)
    && b.io.ids[0].1 != b.io.ids[1].1 && b.io.ids[0].1 != b.io.ids[2].1 && b.io.ids[1].1 != b.io.ids[2].1
  }

  lemma {:induction false} DraftsUseTheirIds(cfg: Config, m: Models, s: Mirror.System, cmds: seq<Command>, saves: seq<seq<Mirror.SaveOutcome>>, id: Id)
    requires |cmds| <= |saves| && id !in s.used
    requires forall i :: 0 <= i < |cmds| ==> cmds[i].incidentId != id
    ensures id !in HandleDrafts(cfg, m, s, cmds, saves).1.used
    decreases |cmds|
  {
    if cmds != [] {
      DraftsUseTheirIds(cfg, m, s, cmds[..|cmds| - 1], saves, id);
    }
  }

  lemma {:induction false} DraftsKeepMirror(cfg: Config, m: Models, s: Mirror.System, cmds: seq<Command>, saves: seq<seq<Mirror.SaveOutcome>>)
    requires |cmds| <= |saves| && Mirror.Inv(s)
    requires forall i :: 0 <= i < |cmds| ==> cmds[i].incidentId !in s.used
    requires forall i, j :: 0 <= i < j < |cmds| ==> cmds[i].incidentId != cmds[j].incidentId
    ensures Mirror.Inv(HandleDrafts(cfg, m, s, cmds, saves).1)
    decreases |cmds|
  {
    if cmds != [] {
      var n := |cmds| - 1;
      DraftsKeepMirror(cfg, m, s, cmds[..n], saves);
      DraftsUseTheirIds(cfg, m, s, cmds[..n], saves, cmds[n].incidentId);
      var s1 := HandleDrafts(cfg, m, s, cmds[..n], saves).1;
      Mirror.HandleKeepsInv(cfg.kinds, s1, cmds[n], Mirror.Written(saves[n]));
    }
  }

  /** Every batch keeps the invariant of the durable mirror. */
  lemma BatchKeepsMirror(cfg: Config, w: World, b: Batch)
    requires Mirror.Inv(w.system) && FreshIds(b, w.system.used)
    ensures Mirror.Inv(BatchStep(cfg, w, b).0.system)
  {
    var obs := ObservationsFromBatch(b.result);
    if obs != [] && !(b.io.appendFailsAt.Some? && b.io.appendFailsAt.value < |obs|) {
      var m := ApplyAll(cfg.capacity, w.models, obs);
      var drafts := EvaluateRules(cfg, w.(models := m), Context(b.now, b.monotonicNow, obs[0].subject, m)).1;
      BatchDraftsKeepMirror(cfg, m, w.system, drafts, b);
    }
  }

  lemma BatchDraftsKeepMirror(cfg: Config, m: Models, s: Mirror.System, drafts: seq<Draft>, b: Batch)
    requires Mirror.Inv(s) && FreshIds(b, s.used) && |drafts| <= 3
    ensures Mirror.Inv(HandleDrafts(cfg, m, s, CommandsOf(drafts, b.now, b.io.ids), b.io.saves).1)
  {
    DraftsKeepMirror(cfg, m, s, CommandsOf(drafts, b.now, b.io.ids), b.io.saves);
  }

  lemma StepKeepsMirror(cfg: Config, w: World, h: Happening, w': World)
    requires Mirror.Inv(w.system) && Follows(cfg, w, h, w')
    ensures Mirror.Inv(w'.system)
  {
    match h
    case Consume(b) => BatchKeepsMirror(cfg, w, b);
    case Sweep(cutoff) => Mirror.SweepKeepsInv(w.system, cutoff);
    case Restart(listing) => Mirror.RestartKeepsInv(w.system, listing, w'.system);
  }

  /** Rows and engine stay linked throughout every history. */
  lemma {:induction false} HistoryKeepsMirror(cfg: Config, worlds: seq<World>, events: seq<Happening>, i: nat)
    requires IsHistory(cfg, worlds, events) && i < |worlds|
    ensures Mirror.Inv(worlds[i].system)
  {
    if i == 0 {
      assert Mirror.Lost([]) == {};
    } else {
      HistoryKeepsMirror(cfg, worlds, events, i - 1);
      assert Follows(cfg, worlds[i - 1], events[i - 1], worlds[i - 1 + 1]);
      StepKeepsMirror(cfg, worlds[i - 1], events[i - 1], worlds[i]);
    }
  }

  // ---- Agreement across restarts -------------------------------------------------------------------

  /** Where the process that runs at moment `i` started. */
  function Started(events: seq<Happening>, i: nat): (from: nat)
    requires i <= |events|
    ensures from <= i
  {
    if i == 0 || events[i - 1].Restart? then i else Started(events, i - 1)
  }

  function WithBatch(batches: seq<Batch>, h: Happening): seq<Batch> {
    match h
    case Restart(_) => []
    case Sweep(_) => batches
    case Consume(b) => batches + [b]
  }

  /** The batches of the process that runs at moment `i`. */
  function BatchesSince(events: seq<Happening>, i: nat): seq<Batch>
    requires i <= |events|
  {
    if i == 0 then [] else WithBatch(BatchesSince(events, i - 1), events[i - 1])
  }

  /** The rule has raised its flag at some moment from `from` to `to`. */
  ghost predicate Raised(cfg: Config, worlds: seq<World>, from: nat, to: nat, s: EntityRef, kind: string)
    requires from <= to < |worlds| && IsBitcoinKind(kind)
  {
    exists j :: from <= j <= to && RuleFlag(cfg, worlds[j], s, kind)
  }

  /** What is known at world `w` of a process that began at `from`. */
  ghost predicate Tells(cfg: Config, from: World, w: World, raised: bool, s: EntityRef, kind: string)
    requires IsBitcoinKind(kind)
  {
    if raised then FlagAgrees(cfg, w, s, kind)
    else !RuleFlag(cfg, w, s, kind) && (IncidentOpen(w.system, s, kind) <==> IncidentOpen(from.system, s, kind))
  }

  lemma BatchTells(cfg: Config, from: World, w: World, b: Batch, raised: bool, s: EntityRef, kind: string)
    requires KindsReady(cfg.kinds) && ValidIo(b.io) && IsBitcoinKind(kind) && Tells(cfg, from, w, raised, s, kind)
    ensures var w' := BatchStep(cfg, w, b).0; Tells(cfg, from, w', raised || RuleFlag(cfg, w', s, kind), s, kind)
  {
    var drafted := BatchMovesRecords(cfg, w, b, s, kind);
  }

  lemma StepTells(cfg: Config, from: World, w: World, h: Happening, w': World, raised: bool, s: EntityRef, kind: string)
    requires KindsReady(cfg.kinds) && IsBitcoinKind(kind) && Follows(cfg, w, h, w') && !h.Restart?
    requires Tells(cfg, from, w, raised, s, kind)
    ensures Tells(cfg, from, w', raised || RuleFlag(cfg, w', s, kind), s, kind)
  {
    if h.Consume? {
      BatchTells(cfg, from, w, h.batch, raised, s, kind);
    }
  }

  lemma RaisedOneMore(cfg: Config, worlds: seq<World>, from: nat, to: nat, s: EntityRef, kind: string)
    requires from <= to && to + 1 < |worlds| && IsBitcoinKind(kind)
    ensures Raised(cfg, worlds, from, to + 1, s, kind)
            <==> Raised(cfg, worlds, from, to, s, kind) || RuleFlag(cfg, worlds[to + 1], s, kind)
  {
  }

  lemma FreshWorldTells(cfg: Config, w: World, s: EntityRef, kind: string)
    requires IsBitcoinKind(kind) && w.rpc == START.rpc && w.peers == START.peers && w.tip == START.tip
    ensures !RuleFlag(cfg, w, s, kind) && Tells(cfg, w, w, false, s, kind)
  {
  }

  /** At its start a process has raised nothing. */
  lemma StartTells(cfg: Config, worlds: seq<World>, events: seq<Happening>, i: nat, s: EntityRef, kind: string)
    requires IsHistory(cfg, worlds, events) && i < |worlds| && IsBitcoinKind(kind) && (i == 0 || events[i - 1].Restart?)
    ensures !Raised(cfg, worlds, i, i, s, kind) && Tells(cfg, worlds[i], worlds[i], false, s, kind)
  {
    assert i > 0 ==> Follows(cfg, worlds[i - 1], events[i - 1], worlds[i - 1 + 1]);
    FreshWorldTells(cfg, worlds[i], s, kind);
  }

  lemma NextTells(cfg: Config, worlds: seq<World>, events: seq<Happening>, from: nat, i: nat, s: EntityRef, kind: string)
    requires KindsReady(cfg.kinds) && IsHistory(cfg, worlds, events) && IsBitcoinKind(kind)
    requires from <= i < |events| && !events[i].Restart?
    requires Tells(cfg, worlds[from], worlds[i], Raised(cfg, worlds, from, i, s, kind), s, kind)
    ensures Tells(cfg, worlds[from], worlds[i + 1], Raised(cfg, worlds, from, i + 1, s, kind), s, kind)
  {
    RaisedOneMore(cfg, worlds, from, i, s, kind);
    StepTells(cfg, worlds[from], worlds[i], events[i], worlds[i + 1], Raised(cfg, worlds, from, i, s, kind), s, kind);
  }

  lemma {:induction false} FlagOverHistory(cfg: Config, worlds: seq<World>, events: seq<Happening>, i: nat, s: EntityRef, kind: string)
    requires KindsReady(cfg.kinds) && IsHistory(cfg, worlds, events) && i < |worlds| && IsBitcoinKind(kind)
    ensures var from := Started(events, i);
            Tells(cfg, worlds[from], worlds[i], Raised(cfg, worlds, from, i, s, kind), s, kind)
  {
    if i == 0 || events[i - 1].Restart? {
      StartTells(cfg, worlds, events, i, s, kind);
    } else {
      FlagOverHistory(cfg, worlds, events, i - 1, s, kind);
      NextTells(cfg, worlds, events, Started(events, i - 1), i - 1, s, kind);
    }
  }

  /** The read model shows what the flag says, and holds nothing newer than the last batch. */
  ghost predicate SignalTells(cfg: Config, w: World, batches: seq<Batch>, s: EntityRef, kind: string)
    requires IsBitcoinKind(kind)
  {
    SignalAgrees(cfg, w, s, kind)
    && forall now :: (batches != [] ==> batches[|batches| - 1].now < now) ==> SignalsBefore(w.models, now)
  }

  ghost predicate ClockedBatches(batches: seq<Batch>) {
    StrictTimes(batches) && forall b :: b in batches ==> NoForeignSignals(b)
  }

  lemma BatchSignalTells(cfg: Config, w: World, batches: seq<Batch>, b: Batch, s: EntityRef, kind: string)
    requires KindsReady(cfg.kinds) && ValidIo(b.io) && IsBitcoinKind(kind) && ClockedBatches(batches + [b])
    requires ClockedBatches(batches) ==> SignalTells(cfg, w, batches, s, kind)
    ensures SignalTells(cfg, BatchStep(cfg, w, b).0, batches + [b], s, kind)
  {
    var batches' := batches + [b];
    assert batches'[|batches|] == b && b in batches';
    forall i, j | 0 <= i < j < |batches| ensures batches[i].now < batches[j].now {
      assert batches'[i].now < batches'[j].now;
    }
    assert batches != [] ==> batches'[|batches| - 1].now < b.now;
    BatchKeepsAgreement(cfg, w, b, s, kind);
  }

  lemma StepSignalTells(cfg: Config, w: World, batches: seq<Batch>, h: Happening, w': World, s: EntityRef, kind: string)
    requires KindsReady(cfg.kinds) && IsBitcoinKind(kind) && Follows(cfg, w, h, w') && ClockedBatches(WithBatch(batches, h))
    requires ClockedBatches(batches) ==> SignalTells(cfg, w, batches, s, kind)
    ensures SignalTells(cfg, w', WithBatch(batches, h), s, kind)
  {
    match h
    case Consume(b) => BatchSignalTells(cfg, w, batches, b, s, kind);
    case Sweep(_) =>
    case Restart(_) => FreshWorldTells(cfg, w', s, kind);
  }

  lemma {:induction false} SignalOverHistory(cfg: Config, worlds: seq<World>, events: seq<Happening>, i: nat, s: EntityRef, kind: string)
    requires KindsReady(cfg.kinds) && IsHistory(cfg, worlds, events) && i < |worlds| && IsBitcoinKind(kind)
    ensures ClockedBatches(BatchesSince(events, i)) ==> SignalTells(cfg, worlds[i], BatchesSince(events, i), s, kind)
  {
    if i == 0 {
      FreshWorldTells(cfg, START, s, kind);
    } else {
      assert Follows(cfg, worlds[i - 1], events[i - 1], worlds[i - 1 + 1]);
      SignalOverHistory(cfg, worlds, events, i - 1, s, kind);
      if ClockedBatches(BatchesSince(events, i)) {
        StepSignalTells(cfg, worlds[i - 1], BatchesSince(events, i - 1), events[i - 1], worlds[i], s, kind);
      }
    }
  }

  /** At any moment of any history - lost saves, failed appends, sweeps, crashes, restarts - a
      raised flag means an open incident, and flag and engine agree if and only if the process
      did not inherit the incident open or the rule has raised its flag since. Until it does, the
      incident stays as it was inherited: it can close only after its rule has drafted Active
      again. The signal read model agrees with the flag when batch times strictly increase. */
  lemma AgreementAcrossRestarts(cfg: Config, user: seq<KindEntry>, worlds: seq<World>, events: seq<Happening>, i: nat,
                                s: EntityRef, kind: string)
    requires Loaded(DEFAULT_KINDS, user, cfg.kinds)
    requires IsHistory(cfg, worlds, events) && i < |worlds| && IsBitcoinKind(kind)
    ensures var w, from := worlds[i], Started(events, i);
            var flag, open := RuleFlag(cfg, w, s, kind), IncidentOpen(w.system, s, kind);
            var inherited, raised := IncidentOpen(worlds[from].system, s, kind), Raised(cfg, worlds, from, i, s, kind);
            (flag ==> open)
            && ((flag <==> open) <==> (inherited ==> raised))
            && (!raised ==> (open <==> inherited))
            && (ClockedBatches(BatchesSince(events, i)) ==> (flag <==> Signalled(w.models, s, kind)))
  {
    LoadedKindsAreReady(user, cfg.kinds);
    FlagOverHistory(cfg, worlds, events, i, s, kind);
    SignalOverHistory(cfg, worlds, events, i, s, kind);
  }

  /** At any moment of any history, stopping and reading the repository back gives the engine's
      open incidents exactly when no lost save is outstanding; and then it lists an incident if
      its rule's flag is up, and, once the rule has raised it or if none was inherited, only then. */
  lemma PipelineRecovery(cfg: Config, user: seq<KindEntry>, worlds: seq<World>, events: seq<Happening>, i: nat,
                         listing: seq<Incident>, s: EntityRef, kind: string)
    requires Loaded(DEFAULT_KINDS, user, cfg.kinds)
    requires IsHistory(cfg, worlds, events) && i < |worlds| && IsBitcoinKind(kind)
    requires Mirror.IsOpenListing(worlds[i].system.rows, listing)
    ensures var w, from := worlds[i], Started(events, i);
            var listed := exists j :: 0 <= j < |listing| && listing[j].fingerprint == Fingerprint(s, kind, None);
            (DistinctFingerprints(listing) && IsRebuilt(listing, w.system.open) <==> Mirror.NothingOutstanding(w.system))
            && (Mirror.NothingOutstanding(w.system) ==>
                  (RuleFlag(cfg, w, s, kind) ==> listed)
                  && (Raised(cfg, worlds, from, i, s, kind) || !IncidentOpen(worlds[from].system, s, kind) ==>
                        (RuleFlag(cfg, w, s, kind) <==> listed)))
  {
    HistoryKeepsMirror(cfg, worlds, events, i);
    Mirror.RecoveryExact(worlds[i].system, listing);
    AgreementAcrossRestarts(cfg, user, worlds, events, i, s, kind);
    ListedIsOpen(worlds[i].system, listing, s, kind);
  }

  lemma ListedIsOpen(system: Mirror.System, listing: seq<Incident>, s: EntityRef, kind: string)
    ensures IsRebuilt(listing, system.open) ==>
              (IncidentOpen(system, s, kind)
               <==> exists j :: 0 <= j < |listing| && listing[j].fingerprint == Fingerprint(s, kind, None))
  {
    assert IncidentOpen(system, s, kind) <==> Fingerprint(s, kind, None) in system.open;
  }
}

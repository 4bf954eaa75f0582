/** Three records of one fact - the rule's flag, the signal read model and the engine's map of
    open incidents - agree after every batch. */
module Agreement {
  import opened Types
  import opened Kinds
  import opened Engine
  import opened Hysteresis
  import opened ReadModels
  import opened TimedRules
  import opened TipLag
  import opened Pipeline
  import Mirror
  import Names

  predicate IsBitcoinKind(kind: string) {
    kind == BITCOIN_RPC_UNREACHABLE || kind == BITCOIN_NO_PEERS || kind == BITCOIN_TIP_LAG
  }

  ghost predicate KindsReady(kinds: Registry) {
    forall k :: IsBitcoinKind(k) ==> k in kinds && BitcoinKind(kinds[k])
  }

  lemma LoadedKindsAreReady(user: seq<KindEntry>, kinds: Registry)
    requires Loaded(DEFAULT_KINDS, user, kinds)
    ensures KindsReady(kinds)
  {
    BitcoinKindsKeepTheirMeaning(user, kinds);
  }

  // ---- The three records -----------------------------------------------------------------------

  predicate RuleFlag(cfg: Config, w: World, s: EntityRef, kind: string)
    requires IsBitcoinKind(kind)
  {
    if kind == BITCOIN_RPC_UNREACHABLE then ActiveIn(BITCOIN_MACHINE, w.rpc, s)
    else if kind == BITCOIN_NO_PEERS then ActiveIn(BITCOIN_MACHINE, w.peers, s)
    else ActiveIn(TipMachine(cfg.flatWindow, cfg.ticks), w.tip, s)
  }

  predicate IncidentOpen(s: Mirror.System, subject: EntityRef, kind: string) {
    Fingerprint(subject, kind, None) in s.open
  }

  predicate Signalled(m: Models, subject: EntityRef, kind: string) {
    SignalActive(m, subject, SignalNameFor(kind))
  }

  // ---- Runs of the consumer ------------------------------------------------------------------------

  predicate ValidBatches(batches: seq<Batch>) {
    forall i :: 0 <= i < |batches| ==> ValidIo(batches[i].io)
  }

  function RunBatches(cfg: Config, batches: seq<Batch>): World
    requires ValidBatches(batches)
  {
    if batches == [] then START
    else BatchStep(cfg, RunBatches(cfg, batches[..|batches| - 1]), batches[|batches| - 1]).0
  }

  /** Batch times strictly increase. */
  predicate StrictTimes(batches: seq<Batch>) {
    forall i, j :: 0 <= i < j < |batches| ==> batches[i].now < batches[j].now
  }

  /** Collectors report no incident signals of their own; only the engine makes them. */
  predicate NoForeignSignals(b: Batch) {
    forall i :: 0 <= i < |ObservationsFromBatch(b.result)| ==>
      !ObservationsFromBatch(b.result)[i].payload.IncidentSignal?
  }

  // ---- One draft ---------------------------------------------------------------------------------------

  /** A Bitcoin rule's draft, as recorded at `now`. */
  predicate RuleCommand(c: Command, now: Timestamp) {
    c.now == now && c.draft.subject.BitcoinNode? && IsBitcoinKind(c.draft.kind)
    && c.draft == BuildDraft(c.draft.kind, c.draft.subject, c.draft.status, CRITICAL_HIGH)
  }

  predicate About(c: Command, s: EntityRef, kind: string) {
    c.draft.subject == s && c.draft.kind == kind
  }

  lemma DraftMovesIncident(cfg: Config, m: Models, s: Mirror.System, c: Command, saved: bool, e: EntityRef, kind: string)
    requires KindsReady(cfg.kinds) && RuleCommand(c, c.now)
    ensures var s' := HandleDraft(cfg, m, s, c, saved).1;
            IncidentOpen(s', e, kind)
            <==> if About(c, e, kind) then c.draft.status == Active else IncidentOpen(s, e, kind)
  {
    assert BitcoinKind(cfg.kinds[c.draft.kind]);
    assert SubjectKind(c.draft.subject) == cfg.kinds[c.draft.kind].allowedSubjects[0];
    assert ValidateDraft(cfg.kinds, c.draft).None?;
  }

  /** Every signal is older than `now`. */
  ghost predicate SignalsBefore(m: Models, now: Timestamp) {
    forall k :: k in m.signal ==> m.signal[k].observedAt < now
  }

  ghost predicate SignalsUpTo(m: Models, now: Timestamp) {
    forall k :: k in m.signal ==> m.signal[k].observedAt <= now
  }

  lemma RecordedModels(cfg: Config, m: Models, s: Mirror.System, c: Command, saved: bool)
    requires KindsReady(cfg.kinds) && RuleCommand(c, c.now)
    ensures HandleDraft(cfg, m, s, c, saved).0 == ApplyTo(cfg.capacity, m, SignalObservationOf(c))
  {
    assert BitcoinKind(cfg.kinds[c.draft.kind]);
    assert SubjectKind(c.draft.subject) == cfg.kinds[c.draft.kind].allowedSubjects[0];
    var events := Record(cfg.kinds, s.open, c).1.value;
    forall i: nat | i < |events| ensures events[i].SignalRecorded? <==> i == 0 {
      SideEffectOrder(cfg.kinds, s.open, c, i);
    }
    var m' := ApplyTo(cfg.capacity, m, SignalObservationOf(c));
    OnlyFirstIsSignal(cfg.capacity, m', events[1..]);
  }

  lemma {:induction false} OnlyFirstIsSignal(capacity: nat, m: Models, events: seq<Event>)
    requires forall i :: 0 <= i < |events| ==> !events[i].SignalRecorded?
    ensures ModelsAfter(capacity, m, events) == m
    decreases |events|
  {
    if events != [] {
      OnlyFirstIsSignal(capacity, m, events[1..]);
    }
  }

  lemma DraftMovesSignal(cfg: Config, m: Models, s: Mirror.System, c: Command, saved: bool, e: EntityRef, kind: string)
    requires KindsReady(cfg.kinds) && RuleCommand(c, c.now)
    requires About(c, e, kind) && (e, SignalNameFor(kind)) in m.signal ==>
               m.signal[(e, SignalNameFor(kind))].observedAt < c.now
    ensures var m' := HandleDraft(cfg, m, s, c, saved).0;
            (Signalled(m', e, kind)
             <==> if About(c, e, kind) then c.draft.status == Active else Signalled(m, e, kind))
            && (!About(c, e, kind) ==>
                  ((e, SignalNameFor(kind)) in m'.signal <==> (e, SignalNameFor(kind)) in m.signal)
                  && ((e, SignalNameFor(kind)) in m.signal ==>
                        m'.signal[(e, SignalNameFor(kind))] == m.signal[(e, SignalNameFor(kind))]))
            && (forall k :: k in m'.signal ==>
                  m'.signal[k].observedAt <= c.now || (k in m.signal && m'.signal[k] == m.signal[k]))
  {
    RecordedModels(cfg, m, s, c, saved);
    if SignalNameFor(kind) == SignalNameFor(c.draft.kind) {
      Names.SignalNameInjective(kind, c.draft.kind);
    }
  }

  /** The clock assumption is what the read model needs: a draft shows in it unless an
      observation of the other status, at the same time or later, is already there. */
  lemma SignalFollowsDraftExactly(cfg: Config, m: Models, s: Mirror.System, c: Command, saved: bool)
    requires KindsReady(cfg.kinds) && RuleCommand(c, c.now)
    ensures var e, kind := c.draft.subject, c.draft.kind;
            var key := (e, SignalNameFor(kind));
            (Signalled(HandleDraft(cfg, m, s, c, saved).0, e, kind) <==> c.draft.status == Active)
            <==> (key in m.signal && m.signal[key].value.status != c.draft.status ==> m.signal[key].observedAt < c.now)
  {
    RecordedModels(cfg, m, s, c, saved);
  }

  // ---- A batch's drafts ----------------------------------------------------------------------------------

  /** The rules of one batch draft about one subject, each rule once at most. */
  predicate BatchCommands(cmds: seq<Command>, now: Timestamp) {
    (forall i :: 0 <= i < |cmds| ==> RuleCommand(cmds[i], now))
    && forall i, j :: 0 <= i < j < |cmds| ==> cmds[i].draft.kind != cmds[j].draft.kind
  }

  /** The status the batch drafted for (e, kind), if any. */
  function DraftedFor(cmds: seq<Command>, e: EntityRef, kind: string): Option<SignalStatus> {
    if cmds == [] then None
    else if About(cmds[|cmds| - 1], e, kind) then Some(cmds[|cmds| - 1].draft.status)
    else DraftedFor(cmds[..|cmds| - 1], e, kind)
  }

  predicate Moved(before: bool, drafted: Option<SignalStatus>, after: bool) {
    match drafted
    case None => after == before
    case Some(status) => after == (status == Active)
  }

  /** A flag that moves and drafts together: it says Active only when it goes up, Cleared only
      when it goes down. */
  predicate Toggled(before: bool, drafted: Option<SignalStatus>, after: bool) {
    match drafted
    case None => after == before
    case Some(Active) => !before && after
    case Some(Cleared) => before && !after
  }

  lemma {:induction false} DraftsMoveRecords(cfg: Config, m: Models, s: Mirror.System, cmds: seq<Command>,
                                             saves: seq<seq<Mirror.SaveOutcome>>, now: Timestamp, e: EntityRef, kind: string)
    requires |cmds| <= |saves| && KindsReady(cfg.kinds) && BatchCommands(cmds, now)
    ensures var (m', s', _) := HandleDrafts(cfg, m, s, cmds, saves);
            Moved(IncidentOpen(s, e, kind), DraftedFor(cmds, e, kind), IncidentOpen(s', e, kind))
            && (SignalsBefore(m, now) ==>
                  Moved(Signalled(m, e, kind), DraftedFor(cmds, e, kind), Signalled(m', e, kind))
                  && (DraftedFor(cmds, e, kind).None? && (e, SignalNameFor(kind)) in m'.signal ==>
                        m'.signal[(e, SignalNameFor(kind))].observedAt < now)
                  && forall k :: k in m'.signal ==> m'.signal[k].observedAt <= now)
    decreases |cmds|
  {
    if cmds != [] {
      var n := |cmds| - 1;
      var front, c := cmds[..n], cmds[n];
      DraftsMoveRecords(cfg, m, s, front, saves, now, e, kind);
      var (m1, s1, _) := HandleDrafts(cfg, m, s, front, saves);
      DraftMovesIncident(cfg, m1, s1, c, Mirror.Written(saves[n]), e, kind);
      if SignalsBefore(m, now) {
        if About(c, e, kind) {
          NotDraftedBefore(front, e, kind);
        }
        DraftMovesSignal(cfg, m1, s1, c, Mirror.Written(saves[n]), e, kind);
      }
    }
  }

  /** Recording drafts leaves the state and health projections alone. */
  lemma {:induction false} DraftsLeaveStates(cfg: Config, m: Models, s: Mirror.System, cmds: seq<Command>,
                                             saves: seq<seq<Mirror.SaveOutcome>>, now: Timestamp)
    requires |cmds| <= |saves| && KindsReady(cfg.kinds) && BatchCommands(cmds, now)
    ensures var m' := HandleDrafts(cfg, m, s, cmds, saves).0; m'.health == m.health && m'.state == m.state
    decreases |cmds|
  {
    if cmds != [] {
      var n := |cmds| - 1;
      DraftsLeaveStates(cfg, m, s, cmds[..n], saves, now);
      var (m1, s1, _) := HandleDrafts(cfg, m, s, cmds[..n], saves);
      RecordedModels(cfg, m1, s1, cmds[n], Mirror.Written(saves[n]));
    }
  }

  lemma {:induction false} NotDraftedBefore(cmds: seq<Command>, e: EntityRef, kind: string)
    requires forall i :: 0 <= i < |cmds| ==> cmds[i].draft.kind != kind
    ensures DraftedFor(cmds, e, kind).None?
    decreases |cmds|
  {
    if cmds != [] {
      NotDraftedBefore(cmds[..|cmds| - 1], e, kind);
    }
  }

  // ---- The rules of one batch ------------------------------------------------------------------------------

  /** What one rule returns for one evaluation: at most one draft, of its own kind. */
  predicate RuleDrafts(d: seq<Draft>, kind: string, subject: EntityRef) {
    |d| <= 1 && (d != [] ==> d[0] == BuildDraft(kind, subject, d[0].status, CRITICAL_HIGH))
  }

  function StatusIn(d: seq<Draft>, mine: bool): Option<SignalStatus> {
    if d != [] && mine then Some(d[0].status) else None
  }

  lemma TimedFlagMoves(table: Table<Timer>, input: Option<Condition>, kind: string, ctx: Context, s: EntityRef)
    ensures var (table', drafts) := Evaluated(BITCOIN_MACHINE, table, input, kind, ctx, CRITICAL_HIGH);
            RuleDrafts(drafts, kind, ctx.subject)
            && Toggled(ActiveIn(BITCOIN_MACHINE, table, s), StatusIn(drafts, s == ctx.subject), ActiveIn(BITCOIN_MACHINE, table', s))
  {
    TimedMachineToggles(Some(STATE_RETENTION), None);
    if input.Some? {
      TouchMovesOwnFlag(BITCOIN_MACHINE, table, ctx.subject, input.value, ctx.monotonicNow, s);
    }
  }

  lemma TipFlagMoves(cfg: Config, table: Table<Tracker>, ctx: Context, s: EntityRef)
    ensures var m := TipMachine(cfg.flatWindow, cfg.ticks);
            var (table', drafts) := EvaluatedTip(cfg.flatWindow, cfg.ticks, table, ctx);
            RuleDrafts(drafts, BITCOIN_TIP_LAG, ctx.subject)
            && Toggled(ActiveIn(m, table, s), StatusIn(drafts, s == ctx.subject), ActiveIn(m, table', s))
  {
    TipMachineToggles(cfg.flatWindow, cfg.ticks);
    var input := TipInput(ctx);
    if input.Some? {
      TouchMovesOwnFlag(TipMachine(cfg.flatWindow, cfg.ticks), table, ctx.subject, input.value, ctx.monotonicNow, s);
    }
  }

  lemma KindsDiffer()
    ensures BITCOIN_RPC_UNREACHABLE != BITCOIN_NO_PEERS && BITCOIN_NO_PEERS != BITCOIN_TIP_LAG
    ensures BITCOIN_RPC_UNREACHABLE != BITCOIN_TIP_LAG
  {
    assert BITCOIN_RPC_UNREACHABLE[8] == 'r' && BITCOIN_NO_PEERS[8] == 'n' && BITCOIN_TIP_LAG[8] == 't';
  }

  lemma OneMoreRule(cmds: seq<Command>, n: nat, k: nat, e: EntityRef, kind: string)
    requires k <= 1 && n + k <= |cmds|
    ensures DraftedFor(cmds[..n + k], e, kind)
            == if k == 1 && About(cmds[n], e, kind) then Some(cmds[n].draft.status) else DraftedFor(cmds[..n], e, kind)
  {
    if k == 1 {
      assert cmds[..n + 1][..n] == cmds[..n];
    }
  }

  /** Which rule drafted the command at position `i`. */
  lemma CommandAt(d1: seq<Draft>, d2: seq<Draft>, d3: seq<Draft>, now: Timestamp, ids: seq<(Id, Id)>, i: nat)
    requires |d1| <= 1 && |d2| <= 1 && |d3| <= 1 && |ids| == 3 && i < |d1| + |d2| + |d3|
    ensures var c := CommandsOf(d1 + d2 + d3, now, ids)[i];
            c.now == now && c.draft == if i < |d1| then d1[0] else if i < |d1| + |d2| then d2[0] else d3[0]
  {
  }

  lemma CombinedIsBatch(d1: seq<Draft>, d2: seq<Draft>, d3: seq<Draft>, subject: EntityRef, now: Timestamp, ids: seq<(Id, Id)>)
    requires |ids| == 3 && (d1 != [] || d2 != [] || d3 != [] ==> subject.BitcoinNode?)
    requires RuleDrafts(d1, BITCOIN_RPC_UNREACHABLE, subject)
    requires RuleDrafts(d2, BITCOIN_NO_PEERS, subject)
    requires RuleDrafts(d3, BITCOIN_TIP_LAG, subject)
    ensures BatchCommands(CommandsOf(d1 + d2 + d3, now, ids), now)
  {
    KindsDiffer();
    var cmds := CommandsOf(d1 + d2 + d3, now, ids);
    forall i | 0 <= i < |cmds| ensures RuleCommand(cmds[i], now) {
      CommandAt(d1, d2, d3, now, ids, i);
    }
    forall i, j | 0 <= i < j < |cmds| ensures cmds[i].draft.kind != cmds[j].draft.kind {
      CommandAt(d1, d2, d3, now, ids, i);
      CommandAt(d1, d2, d3, now, ids, j);
    }
  }

  /** Up to three commands about one subject, of distinct kinds and in rule order: what they
      drafted for (s, kind) is the one of that kind. */
  lemma ThreeRules(cmds: seq<Command>, a: nat, b: nat, c: nat, k1: string, k2: string, k3: string,
                   subject: EntityRef, s: EntityRef, kind: string)
    requires a <= 1 && b <= 1 && c <= 1 && |cmds| == a + b + c
    requires k1 != k2 && k2 != k3 && k1 != k3 && (kind == k1 || kind == k2 || kind == k3)
    requires a == 1 ==> About(cmds[0], subject, k1)
    requires b == 1 ==> About(cmds[a], subject, k2)
    requires c == 1 ==> About(cmds[a + b], subject, k3)
    ensures DraftedFor(cmds, s, kind) ==
            if s != subject then None
            else if kind == k1 then if a == 1 then Some(cmds[0].draft.status) else None
            else if kind == k2 then if b == 1 then Some(cmds[a].draft.status) else None
            else if c == 1 then Some(cmds[a + b].draft.status) else None
  {
    OneMoreRule(cmds, 0, a, s, kind);
    OneMoreRule(cmds, a, b, s, kind);
    OneMoreRule(cmds, a + b, c, s, kind);
    assert cmds[..0] == [] && cmds[..|cmds|] == cmds;
    assert DraftedFor(cmds[..0], s, kind) == None;
  }

  /** What the three rules together drafted for (s, kind) is what the rule of that kind did. */
  lemma CombinedDrafts(d1: seq<Draft>, d2: seq<Draft>, d3: seq<Draft>,
                       subject: EntityRef, now: Timestamp, ids: seq<(Id, Id)>, s: EntityRef, kind: string)
    requires IsBitcoinKind(kind) && |ids| == 3
    requires RuleDrafts(d1, BITCOIN_RPC_UNREACHABLE, subject)
    requires RuleDrafts(d2, BITCOIN_NO_PEERS, subject)
    requires RuleDrafts(d3, BITCOIN_TIP_LAG, subject)
    ensures DraftedFor(CommandsOf(d1 + d2 + d3, now, ids), s, kind)
            == StatusIn(if kind == BITCOIN_RPC_UNREACHABLE then d1 else if kind == BITCOIN_NO_PEERS then d2 else d3, s == subject)
  {
    var cmds := CommandsOf(d1 + d2 + d3, now, ids);
    if d1 != [] { CommandAt(d1, d2, d3, now, ids, 0); }
    if d2 != [] { CommandAt(d1, d2, d3, now, ids, |d1|); }
    if d3 != [] { CommandAt(d1, d2, d3, now, ids, |d1| + |d2|); }
    KindsDiffer();
    ThreeRules(cmds, |d1|, |d2|, |d3|, BITCOIN_RPC_UNREACHABLE, BITCOIN_NO_PEERS, BITCOIN_TIP_LAG, subject, s, kind);
  }

  /** A batch's rules move each flag exactly as their drafts say. */
  lemma RulesMoveFlags(cfg: Config, w: World, ctx: Context, ids: seq<(Id, Id)>, s: EntityRef, kind: string)
    requires IsBitcoinKind(kind) && |ids| == 3
    ensures var (w', drafts) := EvaluateRules(cfg, w, ctx);
            var cmds := CommandsOf(drafts, ctx.now, ids);
            BatchCommands(cmds, ctx.now)
            && w'.models == w.models && w'.system == w.system
            && Toggled(RuleFlag(cfg, w, s, kind), DraftedFor(cmds, s, kind), RuleFlag(cfg, w', s, kind))
  {
    var i1, i2 := RpcInput(cfg.rpcDebounce, ctx), NoPeersInput(cfg.peersDebounce, ctx);
    var (t1, d1) := Evaluated(BITCOIN_MACHINE, w.rpc, i1, BITCOIN_RPC_UNREACHABLE, ctx, CRITICAL_HIGH);
    var (t2, d2) := Evaluated(BITCOIN_MACHINE, w.peers, i2, BITCOIN_NO_PEERS, ctx, CRITICAL_HIGH);
    var (t3, d3) := EvaluatedTip(cfg.flatWindow, cfg.ticks, w.tip, ctx);
    TimedFlagMoves(w.rpc, i1, BITCOIN_RPC_UNREACHABLE, ctx, s);
    TimedFlagMoves(w.peers, i2, BITCOIN_NO_PEERS, ctx, s);
    TipFlagMoves(cfg, w.tip, ctx, s);
    assert EvaluateRules(cfg, w, ctx) == (w.(rpc := t1, peers := t2, tip := t3), d1 + d2 + d3);
    assert !ctx.subject.BitcoinNode? ==> d1 == [] && d2 == [] && d3 == [];
    CombinedIsBatch(d1, d2, d3, ctx.subject, ctx.now, ids);
    CombinedDrafts(d1, d2, d3, ctx.subject, ctx.now, ids, s, kind);
  }

  // ---- One batch ----------------------------------------------------------------------------------------------

  lemma {:induction false} AppliedSignals(capacity: nat, m: Models, obs: seq<Observation>)
    requires forall i :: 0 <= i < |obs| ==> !obs[i].payload.IncidentSignal?
    ensures ApplyAll(capacity, m, obs).signal == m.signal
    decreases |obs|
  {
    if obs != [] {
      AppliedSignals(capacity, m, obs[..|obs| - 1]);
    }
  }

  /** What a batch does to the three records of (s, kind). */
  predicate RecordsMove(cfg: Config, w: World, w': World, s: EntityRef, kind: string, drafted: Option<SignalStatus>)
    requires IsBitcoinKind(kind)
  {
    Toggled(RuleFlag(cfg, w, s, kind), drafted, RuleFlag(cfg, w', s, kind))
    && Moved(IncidentOpen(w.system, s, kind), drafted, IncidentOpen(w'.system, s, kind))
  }

  ghost predicate SignalMoves(w: World, w': World, s: EntityRef, kind: string, drafted: Option<SignalStatus>, now: Timestamp) {
    Moved(Signalled(w.models, s, kind), drafted, Signalled(w'.models, s, kind))
    && SignalsUpTo(w'.models, now)
  }

  /** The part of a batch after its observations are applied. */
  lemma EvaluationMovesRecords(cfg: Config, w: World, b: Batch, subject: EntityRef, s: EntityRef, kind: string)
      returns (drafted: Option<SignalStatus>)
    requires KindsReady(cfg.kinds) && ValidIo(b.io) && IsBitcoinKind(kind)
    ensures var (w1, drafts) := EvaluateRules(cfg, w, Context(b.now, b.monotonicNow, subject, w.models));
            var (models, system, _) := HandleDrafts(cfg, w.models, w.system, CommandsOf(drafts, b.now, b.io.ids), b.io.saves);
            var w' := w1.(models := models, system := system);
            RecordsMove(cfg, w, w', s, kind, drafted)
            && (SignalsBefore(w.models, b.now) ==> SignalMoves(w, w', s, kind, drafted, b.now))
  {
    var ctx := Context(b.now, b.monotonicNow, subject, w.models);
    RulesMoveFlags(cfg, w, ctx, b.io.ids, s, kind);
    var cmds := CommandsOf(EvaluateRules(cfg, w, ctx).1, b.now, b.io.ids);
    drafted := DraftedFor(cmds, s, kind);
    DraftsMoveRecords(cfg, w.models, w.system, cmds, b.io.saves, b.now, s, kind);
  }

  /** Observations that are no signals leave the three records alone. */
  lemma ObservationsKeepRecords(cfg: Config, w: World, obs: seq<Observation>, s: EntityRef, kind: string)
    requires IsBitcoinKind(kind)
    ensures var w1 := w.(models := ApplyAll(cfg.capacity, w.models, obs));
            (RuleFlag(cfg, w1, s, kind) <==> RuleFlag(cfg, w, s, kind)) && w1.system == w.system
            && ((forall i :: 0 <= i < |obs| ==> !obs[i].payload.IncidentSignal?) ==> w1.models.signal == w.models.signal)
  {
    if forall i :: 0 <= i < |obs| ==> !obs[i].payload.IncidentSignal? {
      AppliedSignals(cfg.capacity, w.models, obs);
    }
  }

  /** A batch with nothing to evaluate: no observations, or one that could not be appended. */
  lemma IdleBatchMovesNothing(cfg: Config, w: World, obs: seq<Observation>, now: Timestamp, s: EntityRef, kind: string)
    requires IsBitcoinKind(kind)
    ensures var w1 := w.(models := ApplyAll(cfg.capacity, w.models, obs));
            RecordsMove(cfg, w, w1, s, kind, None)
            && ((forall i :: 0 <= i < |obs| ==> !obs[i].payload.IncidentSignal?) && SignalsBefore(w.models, now) ==>
                  SignalMoves(w, w1, s, kind, None, now))
  {
    ObservationsKeepRecords(cfg, w, obs, s, kind);
  }

  /** A batch that is evaluated: what it moves after its observations it moves over all. */
  lemma FullBatchMovesRecords(cfg: Config, w: World, b: Batch, obs: seq<Observation>, s: EntityRef, kind: string)
      returns (drafted: Option<SignalStatus>)
    requires KindsReady(cfg.kinds) && ValidIo(b.io) && IsBitcoinKind(kind) && obs != []
    ensures var m := ApplyAll(cfg.capacity, w.models, obs);
            var (w1, drafts) := EvaluateRules(cfg, w.(models := m), Context(b.now, b.monotonicNow, obs[0].subject, m));
            var (models, system, _) := HandleDrafts(cfg, m, w.system, CommandsOf(drafts, b.now, b.io.ids), b.io.saves);
            var w' := w1.(models := models, system := system);
            RecordsMove(cfg, w, w', s, kind, drafted)
            && ((forall i :: 0 <= i < |obs| ==> !obs[i].payload.IncidentSignal?) && SignalsBefore(w.models, b.now) ==>
                  SignalMoves(w, w', s, kind, drafted, b.now))
  {
    ObservationsKeepRecords(cfg, w, obs, s, kind);
    drafted := EvaluationMovesRecords(cfg, w.(models := ApplyAll(cfg.capacity, w.models, obs)), b, obs[0].subject, s, kind);
  }

  lemma BatchMovesRecords(cfg: Config, w: World, b: Batch, s: EntityRef, kind: string)
      returns (drafted: Option<SignalStatus>)
    requires KindsReady(cfg.kinds) && ValidIo(b.io) && IsBitcoinKind(kind)
    ensures RecordsMove(cfg, w, BatchStep(cfg, w, b).0, s, kind, drafted)
    ensures NoForeignSignals(b) && SignalsBefore(w.models, b.now) ==>
              SignalMoves(w, BatchStep(cfg, w, b).0, s, kind, drafted, b.now)
  {
    drafted := None;
    var obs := ObservationsFromBatch(b.result);
    if obs == [] {
      IdleBatchMovesNothing(cfg, w, [], b.now, s, kind);
    } else if b.io.appendFailsAt.Some? && b.io.appendFailsAt.value < |obs| {
      IdleBatchMovesNothing(cfg, w, obs[..b.io.appendFailsAt.value], b.now, s, kind);
    } else {
      drafted := FullBatchMovesRecords(cfg, w, b, obs, s, kind);
    }
  }

  // ---- What a batch keeps ---------------------------------------------------------------------------------------

  ghost predicate FlagAgrees(cfg: Config, w: World, s: EntityRef, kind: string)
    requires IsBitcoinKind(kind)
  {
    RuleFlag(cfg, w, s, kind) <==> IncidentOpen(w.system, s, kind)
  }

  ghost predicate SignalAgrees(cfg: Config, w: World, s: EntityRef, kind: string)
    requires IsBitcoinKind(kind)
  {
    RuleFlag(cfg, w, s, kind) <==> Signalled(w.models, s, kind)
  }

  /** A batch keeps what agrees: the flag and the engine without any clock assumption, the flag
      and the read model when its signals are older than the batch. */
  lemma BatchKeepsAgreement(cfg: Config, w: World, b: Batch, s: EntityRef, kind: string)
    requires KindsReady(cfg.kinds) && ValidIo(b.io) && IsBitcoinKind(kind)
    ensures FlagAgrees(cfg, w, s, kind) ==> FlagAgrees(cfg, BatchStep(cfg, w, b).0, s, kind)
    ensures NoForeignSignals(b) && SignalsBefore(w.models, b.now) && SignalAgrees(cfg, w, s, kind) ==>
              SignalAgrees(cfg, BatchStep(cfg, w, b).0, s, kind)
              && SignalsUpTo(BatchStep(cfg, w, b).0.models, b.now)
  {
    var drafted := BatchMovesRecords(cfg, w, b, s, kind);
  }

  // ---- Every run --------------------------------------------------------------------------------------------------

  /** From an empty start, whatever saves are lost, appends fail and drafts come: after every
      batch a Bitcoin rule's flag is raised exactly when the engine has the incident open; no
      clock assumption is needed. If batch times strictly increase and collectors report no
      signals of their own, the signal read model shows Active exactly then too. */
  lemma {:induction false} ThreeWayAgreement(cfg: Config, user: seq<KindEntry>, batches: seq<Batch>, s: EntityRef, kind: string)
    requires Loaded(DEFAULT_KINDS, user, cfg.kinds)
    requires ValidBatches(batches) && IsBitcoinKind(kind)
    ensures var w := RunBatches(cfg, batches);
            (RuleFlag(cfg, w, s, kind) <==> IncidentOpen(w.system, s, kind))
            && (StrictTimes(batches) && (forall b :: b in batches ==> NoForeignSignals(b)) ==>
                  (RuleFlag(cfg, w, s, kind) <==> Signalled(w.models, s, kind)))
  {
    LoadedKindsAreReady(user, cfg.kinds);
    AgreementOfRun(cfg, batches, s, kind);
  }

  lemma {:induction false} AgreementOfRun(cfg: Config, batches: seq<Batch>, s: EntityRef, kind: string)
    requires KindsReady(cfg.kinds) && ValidBatches(batches) && IsBitcoinKind(kind)
    ensures FlagAgrees(cfg, RunBatches(cfg, batches), s, kind)
    ensures StrictTimes(batches) && (forall b :: b in batches ==> NoForeignSignals(b)) ==>
              SignalAgrees(cfg, RunBatches(cfg, batches), s, kind)
              && forall now :: (batches != [] ==> batches[|batches| - 1].now < now) ==>
                   SignalsBefore(RunBatches(cfg, batches).models, now)
    decreases |batches|
  {
    if batches != [] {
      var n := |batches| - 1;
      var front, b := batches[..n], batches[n];
      AgreementOfRun(cfg, front, s, kind);
      var w := RunBatches(cfg, front);
      if StrictTimes(batches) && (forall b :: b in batches ==> NoForeignSignals(b)) {
        assert StrictTimes(front) && forall b :: b in front ==> NoForeignSignals(b);
        assert b in batches;
        assert front != [] ==> front[n - 1] == batches[n - 1] && batches[n - 1].now < b.now;
        assert SignalsBefore(w.models, b.now);
      }
      BatchKeepsAgreement(cfg, w, b, s, kind);
    }
  }
}

/** The tip-lag / stalled-download rule: counts consecutive evaluations in both directions and
    tracks how long the verification progress has been flat. */
module TipLag {
  import opened Types
  import opened Hysteresis
  import opened TimedRules

  const A1_MAX_HEADER_BLOCK_GAP: nat := 1000
  const A1_MIN_VERIFICATION_PROGRESS: real := 0.999
  const A1_MIN_PEER_COUNT: nat := 8
  const A2_MIN_HEADER_BLOCK_GAP: nat := A1_MAX_HEADER_BLOCK_GAP
  const PROGRESS_EPSILON: real := 0.000000001
  const U32_MAX: nat := 0xFFFF_FFFF

  /** What one evaluation reads of the blockchain and peer states. */
  datatype Sample = Sample(blocks: nat, headers: nat, progress: real, initialBlockDownload: bool, peerCount: nat)

  datatype Tracker = Tracker(
    consecutiveFiring: nat,
    consecutiveClearing: nat,
    activeEmitted: bool,
    lastProgress: Option<real>,
    lastProgressChangeAt: Option<Instant>)

  const FRESH_TRACKER := Tracker(0, 0, false, None, None)

  // ---- Specification -----------------------------------------------------------------------

  function Gap(s: Sample): nat {
    if s.headers >= s.blocks then s.headers - s.blocks else 0
  }

  function Abs(x: real): real {
    if x >= 0.0 then x else -x
  }

  function SaturatingIncrement(n: nat): nat {
    if n >= U32_MAX then U32_MAX else n + 1
  }

  predicate A1Holds(s: Sample) {
    s.initialBlockDownload && Gap(s) < A1_MAX_HEADER_BLOCK_GAP
    && s.progress > A1_MIN_VERIFICATION_PROGRESS && s.peerCount >= A1_MIN_PEER_COUNT
  }

  function Observe(t: Tracker, s: Sample, now: Instant): Tracker {
    if t.lastProgress.None? || Abs(s.progress - t.lastProgress.value) > PROGRESS_EPSILON
    then t.(lastProgress := Some(s.progress), lastProgressChangeAt := Some(now))
    else t
  }

  /** `t` has already observed `s`. */
  predicate A2Holds(t: Tracker, s: Sample, now: Instant, flatWindow: Duration) {
    var lastChange := if t.lastProgressChangeAt.Some? then t.lastProgressChangeAt.value else now;
    Gap(s) >= A2_MIN_HEADER_BLOCK_GAP && DurationSince(now, lastChange) >= flatWindow
  }

  predicate IsFiring(t: Tracker, s: Sample, now: Instant, flatWindow: Duration) {
    A1Holds(s) || A2Holds(t, s, now, flatWindow)
  }

  function Count(t: Tracker, firing: bool, ticks: nat): (Tracker, Option<SignalStatus>) {
    if firing then
      var n := SaturatingIncrement(t.consecutiveFiring);
      var t' := t.(consecutiveClearing := 0, consecutiveFiring := n);
      if !t.activeEmitted && n >= ticks then (t'.(activeEmitted := true), Some(Active)) else (t', None)
    else
      var n := SaturatingIncrement(t.consecutiveClearing);
      var t' := t.(consecutiveFiring := 0, consecutiveClearing := n);
      if t.activeEmitted && n >= ticks then (t'.(activeEmitted := false), Some(Cleared)) else (t', None)
  }

  function ReactTip(t: Tracker, s: Sample, now: Instant, flatWindow: Duration, ticks: nat): (Tracker, Option<SignalStatus>) {
    var seen := Observe(t, s, now);
    Count(seen, IsFiring(seen, s, now, flatWindow), ticks)
  }

  function TipMachine(flatWindow: Duration, ticks: nat): Machine<Tracker, Sample> {
    Machine(FRESH_TRACKER, (t, s, now) => ReactTip(t, s, now, flatWindow, ticks), (t: Tracker) => t.activeEmitted,
            Some(STATE_RETENTION), None)
  }

  /** Entries live an hour after their last touch, with an Active outstanding for ever. */
  lemma TipRetention(flatWindow: Duration, ticks: nat)
    ensures TipMachine(flatWindow, ticks).idleTtl == Some(3_600_000_000_000) && TipMachine(flatWindow, ticks).activeTtl == None
    ensures TipMachine(flatWindow, ticks).initial == Tracker(0, 0, false, None, None)
  {
  }

  lemma TipMachineToggles(flatWindow: Duration, ticks: nat)
    ensures Toggles(TipMachine(flatWindow, ticks))
  {
    var m := TipMachine(flatWindow, ticks);
    forall e, i, t ensures TogglesAt(m, e, i, t) {
      assert m.react(e, i, t) == ReactTip(e, i, t, flatWindow, ticks);
    }
  }

  /** No evaluation unless both states are known. */
  function TipInput(ctx: Context): Option<Sample> {
    if !ctx.subject.BitcoinNode? then None
    else
      var chain, peers := BlockchainOf(ctx.models, ctx.subject), PeersOf(ctx.models, ctx.subject);
      if chain.None? || peers.None? then None
      else Some(Sample(chain.value.blocks, chain.value.headers, chain.value.verificationProgress,
                       chain.value.initialBlockDownload, peers.value.peerCount))
  }

  function EvaluatedTip(flatWindow: Duration, ticks: nat, table: Table<Tracker>, ctx: Context): (Table<Tracker>, seq<Draft>) {
    match TipInput(ctx)
    case None => (table, [])
    case Some(s) =>
      var (table', out) := Touch(TipMachine(flatWindow, ticks), table, ctx.subject, s, ctx.monotonicNow);
      (table', DraftsFor(BITCOIN_TIP_LAG, ctx.subject, out, CRITICAL_HIGH))
  }

  // ---- The rule -----------------------------------------------------------------------------

  class BitcoinTipLagRule {
    const flatWindow: Duration
    const debounceTicks: nat
    var state: Table<Tracker>

    constructor (flatWindow: Duration, debounceTicks: nat)
      requires 1 <= debounceTicks <= U32_MAX
      ensures this.flatWindow == flatWindow && this.debounceTicks == debounceTicks && state == map[]
    {
      this.flatWindow := flatWindow;
      this.debounceTicks := debounceTicks;
      state := map[];
    }

    method Evaluate(ctx: Context) returns (drafts: seq<Draft>)
      modifies this
      ensures (state, drafts) == EvaluatedTip(flatWindow, debounceTicks, old(state), ctx)
    {
      drafts := [];
      var input := TipInput(ctx);
      if input.None? {
        return;
      }
      PruneStale(ctx.monotonicNow);
      ghost var kept := state;
      if ctx.subject !in state {
        state := state[ctx.subject := Tracked(FRESH_TRACKER, None)];
      }
      var core := state[ctx.subject].core;
      var firing;
      core, firing := UpdateStateAndClassify(core, input.value, ctx.monotonicNow);
      if firing {
        core := core.(consecutiveClearing := 0, consecutiveFiring := SaturatingIncrement(core.consecutiveFiring));
        if !core.activeEmitted && core.consecutiveFiring >= debounceTicks {
          core := core.(activeEmitted := true);
          drafts := [BuildDraft(BITCOIN_TIP_LAG, ctx.subject, Active, CRITICAL_HIGH)];
        }
      } else {
        core := core.(consecutiveFiring := 0, consecutiveClearing := SaturatingIncrement(core.consecutiveClearing));
        if core.activeEmitted && core.consecutiveClearing >= debounceTicks {
          core := core.(activeEmitted := false);
          drafts := [BuildDraft(BITCOIN_TIP_LAG, ctx.subject, Cleared, CRITICAL_HIGH)];
        }
      }
      state := state[ctx.subject := Tracked(core, Some(ctx.monotonicNow))];
      assert state == kept[ctx.subject := Tracked(core, Some(ctx.monotonicNow))];
      TouchTip(flatWindow, debounceTicks, old(state), ctx.subject, input.value, ctx.monotonicNow);
    }

    method UpdateStateAndClassify(core: Tracker, s: Sample, now: Instant) returns (core': Tracker, firing: bool)
      ensures core' == Observe(core, s, now) && firing == IsFiring(core', s, now, flatWindow)
    {
      core' := core;
      match core.lastProgress {
        case None =>
          core' := core'.(lastProgress := Some(s.progress));
          core' := core'.(lastProgressChangeAt := Some(now));
        case Some(previous) =>
          if Abs(s.progress - previous) > PROGRESS_EPSILON {
            core' := core'.(lastProgress := Some(s.progress));
            core' := core'.(lastProgressChangeAt := Some(now));
          }
      }
      var lastChange := if core'.lastProgressChangeAt.Some? then core'.lastProgressChangeAt.value else now;
      var a1 := A1Holds(s);
      var a2 := Gap(s) >= A2_MIN_HEADER_BLOCK_GAP && DurationSince(now, lastChange) >= flatWindow;
      firing := a1 || a2;
    }

    method PruneStale(now: Instant)
      modifies this
      ensures state == Prune(TipMachine(flatWindow, debounceTicks), old(state), now)
    {
      state := map s | s in state
        && (state[s].core.activeEmitted || state[s].lastTouchedAt.None?
            || DurationSince(now, state[s].lastTouchedAt.value) < STATE_RETENTION) :: state[s];
    }
  }

  lemma TouchTip(flatWindow: Duration, ticks: nat, table: Table<Tracker>, subject: EntityRef, s: Sample, now: Instant)
    ensures var m := TipMachine(flatWindow, ticks);
            var kept := Prune(m, table, now);
            var (core, out) := ReactTip(if subject in kept then kept[subject].core else FRESH_TRACKER, s, now, flatWindow, ticks);
            Touch(m, table, subject, s, now) == (kept[subject := Tracked(core, Some(now))], out)
  {
  }

  // ---- Counters and the flag -------------------------------------------------------------------

  type TipVisit = Visit<Sample>

  /** The subject's visits since its entry was last created. */
  function Life(flatWindow: Duration, ticks: nat, own: seq<TipVisit>): (life: seq<TipVisit>)
    ensures own != [] ==> life != [] && life[|life| - 1] == own[|own| - 1]
  {
    if own == [] then []
    else
      var front, v := own[..|own| - 1], own[|own| - 1];
      var entry := Solo(TipMachine(flatWindow, ticks), front).0;
      (if entry.Some? && Fresh(TipMachine(flatWindow, ticks), entry.value, v.at) then Life(flatWindow, ticks, front) else [])
      + [v]
  }

  /** The visit whose progress the later ones of a life are compared with: each visit that
      differs from it by more than a billionth becomes it. */
  function AnchorOf(life: seq<TipVisit>): (a: nat)
    requires life != []
    ensures a < |life|
  {
    var n := |life| - 1;
    if n == 0 then 0
    else
      var a := AnchorOf(life[..n]);
      var change := life[n].input.progress - life[a].input.progress;
      if -0.000000001 <= change <= 0.000000001 then a else n
  }

  /** What counts as firing: an initial download that reports itself done at the tip with peers
      enough, or a thousand blocks missing and no progress for the flat window. */
  predicate Fires(flatWindow: Duration, life: seq<TipVisit>)
    requires life != []
  {
    var v := life[|life| - 1];
    var missing := v.input.headers - v.input.blocks;
    if missing < 1000 then
      v.input.initialBlockDownload && v.input.progress > 0.999 && v.input.peerCount >= 8
    else
      DurationSince(v.at, life[AnchorOf(life)].at) >= flatWindow
  }

  function Firings(flatWindow: Duration, life: seq<TipVisit>): seq<bool> {
    if life == [] then [] else Firings(flatWindow, life[..|life| - 1]) + [Fires(flatWindow, life)]
  }

  /** The last `n` classifications before position `end` all equal `b`. */
  predicate RunBefore(cs: seq<bool>, end: nat, b: bool, n: nat) {
    n <= end <= |cs| && forall i :: end - n <= i < end ==> cs[i] == b
  }

  /** Length of the run of `b` at the end. */
  function Trailing(cs: seq<bool>, b: bool): (n: nat)
    ensures RunBefore(cs, |cs|, b, n)
    ensures n < |cs| ==> cs[|cs| - n - 1] != b
  {
    if cs == [] || cs[|cs| - 1] != b then 0
    else
      assert forall i :: 0 <= i < |cs| - 1 ==> cs[..|cs| - 1][i] == cs[i];
      Trailing(cs[..|cs| - 1], b) + 1
  }

  function Cap(n: nat): nat {
    if n > U32_MAX then U32_MAX else n
  }

  /** A run of `ticks` firing evaluations ends at `i` and no run of `ticks` clear ones after it. */
  ghost predicate OutstandingFrom(cs: seq<bool>, ticks: nat, i: nat) {
    i <= |cs| && RunBefore(cs, i, true, ticks) && forall j :: i < j <= |cs| ==> !RunBefore(cs, j, false, ticks)
  }

  ghost predicate Outstanding(cs: seq<bool>, ticks: nat) {
    exists i :: OutstandingFrom(cs, ticks, i)
  }

  ghost predicate Counts(t: Tracker, cs: seq<bool>, ticks: nat) {
    t.consecutiveFiring == Cap(Trailing(cs, true)) && t.consecutiveClearing == Cap(Trailing(cs, false))
    && (t.activeEmitted <==> Outstanding(cs, ticks))
  }

  lemma TrailingAppend(cs: seq<bool>, x: bool, b: bool, ticks: nat)
    requires ticks >= 1
    ensures Trailing(cs + [x], b) == if x == b then Trailing(cs, b) + 1 else 0
    ensures RunBefore(cs + [x], |cs| + 1, b, ticks) <==> x == b && Trailing(cs, b) + 1 >= ticks
  {
    var cs' := cs + [x];
    assert cs'[..|cs|] == cs;
    var k := Trailing(cs', b);
    if k >= ticks {
      assert RunBefore(cs', |cs'|, b, ticks);
    } else {
      assert k < |cs'| ==> cs'[|cs'| - k - 1] != b;
    }
  }

  lemma OutstandingAppend(cs: seq<bool>, x: bool, ticks: nat)
    requires ticks >= 1
    ensures Outstanding(cs + [x], ticks)
            <==> if x then Outstanding(cs, ticks) || Trailing(cs, true) + 1 >= ticks
                 else Outstanding(cs, ticks) && Trailing(cs, false) + 1 < ticks
  {
    var cs' := cs + [x];
    TrailingAppend(cs, x, true, ticks);
    TrailingAppend(cs, x, false, ticks);
    forall i, b | 0 <= i <= |cs| ensures RunBefore(cs', i, b, ticks) <==> RunBefore(cs, i, b, ticks) {
    }
    if x && Trailing(cs, true) + 1 >= ticks {
      assert OutstandingFrom(cs', ticks, |cs'|);
    }
    if i: nat :| OutstandingFrom(cs, ticks, i) {
      if !RunBefore(cs', |cs'|, false, ticks) {
        assert OutstandingFrom(cs', ticks, i);
      }
    }
    if i: nat :| OutstandingFrom(cs', ticks, i) {
      if i <= |cs| {
        assert OutstandingFrom(cs, ticks, i);
        assert !RunBefore(cs', |cs'|, false, ticks);
      }
    }
  }

  lemma CountKeepsCounts(t: Tracker, cs: seq<bool>, firing: bool, ticks: nat)
    requires 1 <= ticks <= U32_MAX && Counts(t, cs, ticks)
    ensures Counts(Count(t, firing, ticks).0, cs + [firing], ticks)
  {
    TrailingAppend(cs, firing, true, ticks);
    TrailingAppend(cs, firing, false, ticks);
    OutstandingAppend(cs, firing, ticks);
  }

  /** The tracker remembers the anchor of the life `life`. */
  ghost predicate Remembers(t: Tracker, life: seq<TipVisit>) {
    if life == [] then t.lastProgress == None && t.lastProgressChangeAt == None
    else t.lastProgress == Some(life[AnchorOf(life)].input.progress)
         && t.lastProgressChangeAt == Some(life[AnchorOf(life)].at)
  }

  lemma ObserveRemembers(t: Tracker, life: seq<TipVisit>, v: TipVisit)
    requires Remembers(t, life)
    ensures Remembers(Observe(t, v.input, v.at), life + [v])
  {
    assert (life + [v])[..|life|] == life;
  }

  lemma FiringIsFires(t: Tracker, life: seq<TipVisit>, v: TipVisit, flatWindow: Duration)
    requires Remembers(t, life + [v])
    ensures IsFiring(t, v.input, v.at, flatWindow) == Fires(flatWindow, life + [v])
  {
  }

  lemma FiringsAppend(flatWindow: Duration, life: seq<TipVisit>, v: TipVisit)
    ensures Firings(flatWindow, life + [v]) == Firings(flatWindow, life) + [Fires(flatWindow, life + [v])]
  {
    assert (life + [v])[..|life|] == life;
  }

  /** One evaluation of a tracker that has seen the life `life`. */
  lemma ReactCounts(t: Tracker, life: seq<TipVisit>, v: TipVisit, flatWindow: Duration, ticks: nat)
    requires 1 <= ticks <= U32_MAX && Remembers(t, life) && Counts(t, Firings(flatWindow, life), ticks)
    ensures var t' := ReactTip(t, v.input, v.at, flatWindow, ticks).0;
            Remembers(t', life + [v]) && Counts(t', Firings(flatWindow, life + [v]), ticks)
  {
    ObserveRemembers(t, life, v);
    var seen := Observe(t, v.input, v.at);
    FiringIsFires(seen, life, v, flatWindow);
    FiringsAppend(flatWindow, life, v);
    CountKeepsCounts(seen, Firings(flatWindow, life), Fires(flatWindow, life + [v]), ticks);
  }

  lemma {:induction false} SoloCounters(flatWindow: Duration, ticks: nat, own: seq<TipVisit>)
    requires 1 <= ticks <= U32_MAX && own != []
    ensures var core, life := Solo(TipMachine(flatWindow, ticks), own).0.value.core, Life(flatWindow, ticks, own);
            Counts(core, Firings(flatWindow, life), ticks) && Remembers(core, life)
    decreases |own|
  {
    var m := TipMachine(flatWindow, ticks);
    var front, v := own[..|own| - 1], own[|own| - 1];
    var entry := Solo(m, front).0;
    var before := Resumed(m, entry, v.at);
    var life := if entry.Some? && Fresh(m, entry.value, v.at) then Life(flatWindow, ticks, front) else [];
    if front != [] {
      SoloCounters(flatWindow, ticks, front);
    }
    assert !Outstanding([], ticks) && Counts(FRESH_TRACKER, [], ticks);
    ReactCounts(before, life, v, flatWindow, ticks);
    assert m.react(before, v.input, v.at) == ReactTip(before, v.input, v.at, flatWindow, ticks);
  }

  /** In every run, each counter of an entry in the rule's table is the length of the trailing
      run of its classification since the entry was created, capped at the counter's range, and
      the flag says that a run of `ticks` firing evaluations has not been answered by a run of
      `ticks` clear ones. */
  lemma CountersAreTrailingRuns(flatWindow: Duration, ticks: nat, visits: seq<TipVisit>, s: EntityRef)
    requires 1 <= ticks <= U32_MAX && Monotone(visits) && s in Run(TipMachine(flatWindow, ticks), visits).0
    ensures Counts(Run(TipMachine(flatWindow, ticks), visits).0[s].core,
                   Firings(flatWindow, Life(flatWindow, ticks, Own(visits, s))), ticks)
  {
    TableIsSolo(TipMachine(flatWindow, ticks), visits, s);
    SoloCounters(flatWindow, ticks, Own(visits, s));
  }

  // ---- Flap bound ----------------------------------------------------------------------------------

  /** Evaluations already counted towards the next draft. */
  function Progress(t: Tracker): nat {
    if t.activeEmitted then t.consecutiveClearing else t.consecutiveFiring
  }

  function ProgressAfter(flatWindow: Duration, ticks: nat, own: seq<TipVisit>): nat {
    match Solo(TipMachine(flatWindow, ticks), own).0
    case None => 0
    case Some(entry) => Progress(entry.core)
  }

  function DraftCount(flatWindow: Duration, ticks: nat, own: seq<TipVisit>): nat {
    |Emitted(Solo(TipMachine(flatWindow, ticks), own).1)|
  }

  lemma ReactProgress(t: Tracker, s: Sample, now: Instant, flatWindow: Duration, ticks: nat)
    requires 1 <= ticks <= U32_MAX && Progress(t) < ticks
    ensures var (t', out) := ReactTip(t, s, now, flatWindow, ticks);
            Progress(t') < ticks
            && (out.None? ==> Progress(t') <= Progress(t) + 1)
            && (out.Some? ==> Progress(t') == 0 && Progress(t) + 1 >= ticks)
  {
  }

  lemma {:induction false} EachDraftCostsItsTicks(flatWindow: Duration, ticks: nat, own: seq<TipVisit>, k: nat)
    requires 1 <= ticks <= U32_MAX && k <= |own|
    ensures ProgressAfter(flatWindow, ticks, own) < ticks
    ensures ticks * DraftCount(flatWindow, ticks, own) + ProgressAfter(flatWindow, ticks, own)
            <= ticks * DraftCount(flatWindow, ticks, own[..k]) + ProgressAfter(flatWindow, ticks, own[..k]) + |own| - k
    decreases |own|
  {
    if own == [] {
    } else if k == |own| {
      assert own[..k] == own;
      EachDraftCostsItsTicks(flatWindow, ticks, own[..|own| - 1], 0);
      OneVisitCosts(flatWindow, ticks, own);
    } else {
      var front := own[..|own| - 1];
      EachDraftCostsItsTicks(flatWindow, ticks, front, k);
      assert front[..k] == own[..k];
      OneVisitCosts(flatWindow, ticks, own);
    }
  }

  lemma OneVisitCosts(flatWindow: Duration, ticks: nat, own: seq<TipVisit>)
    requires 1 <= ticks <= U32_MAX && own != []
    requires ProgressAfter(flatWindow, ticks, own[..|own| - 1]) < ticks
    ensures ProgressAfter(flatWindow, ticks, own) < ticks
    ensures ticks * DraftCount(flatWindow, ticks, own) + ProgressAfter(flatWindow, ticks, own)
            <= ticks * DraftCount(flatWindow, ticks, own[..|own| - 1]) + ProgressAfter(flatWindow, ticks, own[..|own| - 1]) + 1
  {
    var m, n := TipMachine(flatWindow, ticks), |own| - 1;
    var front, v := own[..n], own[n];
    var (entry, outs) := Solo(m, front);
    var before := Resumed(m, entry, v.at);
    assert Progress(before) <= ProgressAfter(flatWindow, ticks, front);
    assert m.react(before, v.input, v.at) == ReactTip(before, v.input, v.at, flatWindow, ticks);
    ReactProgress(before, v.input, v.at, flatWindow, ticks);
    var (after, out) := ReactTip(before, v.input, v.at, flatWindow, ticks);
    assert Solo(m, own).1 == outs + [out] && (outs + [out])[..n] == outs;
    var d := DraftCount(flatWindow, ticks, front);
    if out.Some? {
      assert DraftCount(flatWindow, ticks, own) == d + 1;
      assert ticks * (d + 1) == ticks * d + ticks;
    } else {
      assert DraftCount(flatWindow, ticks, own) == d;
    }
  }

  /** Over the first n classified evaluations of a subject the rule emits at most n / ticks
      drafts, and over any n later ones at most (n + ticks - 1) / ticks, pruned or not. */
  lemma FlapBound(flatWindow: Duration, ticks: nat, visits: seq<TipVisit>, s: EntityRef, k: nat)
    requires 1 <= ticks <= U32_MAX && Monotone(visits) && k <= |Own(visits, s)|
    ensures var outs := OwnOutputs(visits, Run(TipMachine(flatWindow, ticks), visits).1, s);
            |outs| == |Own(visits, s)|
            && ticks * |Emitted(outs)| <= |outs|
            && ticks * |Emitted(outs)| <= ticks * |Emitted(outs[..k])| + (|outs| - k) + ticks - 1
  {
    var m, own := TipMachine(flatWindow, ticks), Own(visits, s);
    SubjectsAreIndependent(m, visits, s);
    SoloPrefix(m, own, k);
    SoloFlapBound(flatWindow, ticks, own, k);
  }

  lemma SoloFlapBound(flatWindow: Duration, ticks: nat, own: seq<TipVisit>, k: nat)
    requires 1 <= ticks <= U32_MAX && k <= |own|
    ensures ticks * DraftCount(flatWindow, ticks, own) <= |own|
    ensures ticks * DraftCount(flatWindow, ticks, own)
            <= ticks * DraftCount(flatWindow, ticks, own[..k]) + (|own| - k) + ticks - 1
  {
    EachDraftCostsItsTicks(flatWindow, ticks, own, 0);
    EachDraftCostsItsTicks(flatWindow, ticks, own, k);
    EachDraftCostsItsTicks(flatWindow, ticks, own[..k], 0);
    assert own[..0] == [];
    assert DraftCount(flatWindow, ticks, []) == 0 && ProgressAfter(flatWindow, ticks, []) == 0;
    assert ticks * 0 == 0;
  }

  // ---- Near the tip ---------------------------------------------------------------------------------

  /** Fewer than a thousand blocks are missing. */
  predicate NearTip(s: Sample) {
    s.headers - s.blocks < 1000
  }

  /** The node says it is still downloading although it is near the tip, done, and connected. */
  predicate StuckAtTip(s: Sample) {
    s.initialBlockDownload && NearTip(s) && s.progress > 0.999 && s.peerCount >= 8
  }

  lemma NearTipFires(t: Tracker, s: Sample, now: Instant, flatWindow: Duration)
    requires NearTip(s)
    ensures IsFiring(Observe(t, s, now), s, now, flatWindow) <==> StuckAtTip(s)
  {
  }

  /** With active entries never dropped, the flag says what the last draft said. */
  lemma FlagIsLastDraft(flatWindow: Duration, ticks: nat, own: seq<TipVisit>)
    ensures var m := TipMachine(flatWindow, ticks);
            EndsActive(Emitted(Solo(m, own).1)) <==> Flag(m, Solo(m, own).0)
  {
    var m := TipMachine(flatWindow, ticks);
    TipMachineToggles(flatWindow, ticks);
    SoloAlternatesExactly(m, own);
    AlternatesAppend(Emitted(Solo(m, own).1), None);
  }

  lemma {:induction false} SoloOffTip(flatWindow: Duration, ticks: nat, own: seq<TipVisit>)
    requires ticks >= 1 && forall i :: 0 <= i < |own| ==> NearTip(own[i].input) && !StuckAtTip(own[i].input)
    ensures var (entry, outs) := Solo(TipMachine(flatWindow, ticks), own);
            SilentFrom(outs, 0) && (entry.Some? ==> !entry.value.core.activeEmitted)
    decreases |own|
  {
    if own != [] {
      var m := TipMachine(flatWindow, ticks);
      var front, v := own[..|own| - 1], own[|own| - 1];
      SoloOffTip(flatWindow, ticks, front);
      var before := Resumed(m, Solo(m, front).0, v.at);
      NearTipFires(before, v.input, v.at, flatWindow);
      assert m.react(before, v.input, v.at) == ReactTip(before, v.input, v.at, flatWindow, ticks);
    }
  }

  /** A subject that is always near the tip, and never stuck there, is never drafted: in
      particular a node that has left its initial download. */
  lemma HealthyNodeStaysSilent(flatWindow: Duration, ticks: nat, visits: seq<TipVisit>, s: EntityRef)
    requires ticks >= 1 && Monotone(visits)
    requires forall i :: 0 <= i < |Own(visits, s)| ==> NearTip(Own(visits, s)[i].input) && !StuckAtTip(Own(visits, s)[i].input)
    ensures SilentFrom(OwnOutputs(visits, Run(TipMachine(flatWindow, ticks), visits).1, s), 0)
  {
    SubjectsAreIndependent(TipMachine(flatWindow, ticks), visits, s);
    SoloOffTip(flatWindow, ticks, Own(visits, s));
  }

  /** The last `k` visits are stuck at the tip and less than an hour apart. */
  predicate StuckFor(own: seq<TipVisit>, k: nat) {
    k <= |own|
    && (forall i :: |own| - k <= i < |own| ==> StuckAtTip(own[i].input))
    && forall i :: |own| - k < i < |own| ==> DurationSince(own[i].at, own[i - 1].at) < 3600 * SECOND
  }

  /** The last `k` visits are near the tip and not stuck there. */
  predicate OffFor(own: seq<TipVisit>, k: nat) {
    k <= |own| && forall i :: |own| - k <= i < |own| ==> NearTip(own[i].input) && !StuckAtTip(own[i].input)
  }

  lemma {:induction false} SoloStuck(flatWindow: Duration, ticks: nat, own: seq<TipVisit>, k: nat)
    requires 1 <= ticks <= U32_MAX && 1 <= k <= ticks && StuckFor(own, k)
    ensures var core := Solo(TipMachine(flatWindow, ticks), own).0.value.core;
            core.activeEmitted || (k < ticks && core.consecutiveFiring >= k)
    decreases k
  {
    var m := TipMachine(flatWindow, ticks);
    var front, v := own[..|own| - 1], own[|own| - 1];
    var entry := Solo(m, front).0;
    if k > 1 {
      assert StuckFor(front, k - 1);
      SoloStuck(flatWindow, ticks, front, k - 1);
      assert DurationSince(v.at, own[|own| - 2].at) < 3600 * SECOND;
      assert Resumed(m, entry, v.at) == entry.value.core;
    }
    var before := Resumed(m, entry, v.at);
    NearTipFires(before, v.input, v.at, flatWindow);
    assert m.react(before, v.input, v.at) == ReactTip(before, v.input, v.at, flatWindow, ticks);
  }

  lemma {:induction false} SoloOff(flatWindow: Duration, ticks: nat, own: seq<TipVisit>, k: nat)
    requires 1 <= ticks <= U32_MAX && 1 <= k <= ticks && OffFor(own, k)
    ensures var core := Solo(TipMachine(flatWindow, ticks), own).0.value.core;
            !core.activeEmitted || (k < ticks && core.consecutiveClearing >= k)
    decreases k
  {
    var m := TipMachine(flatWindow, ticks);
    var front, v := own[..|own| - 1], own[|own| - 1];
    if k > 1 {
      assert OffFor(front, k - 1);
      SoloOff(flatWindow, ticks, front, k - 1);
    }
    var before := Resumed(m, Solo(m, front).0, v.at);
    NearTipFires(before, v.input, v.at, flatWindow);
    assert m.react(before, v.input, v.at) == ReactTip(before, v.input, v.at, flatWindow, ticks);
  }

  /** After `ticks` consecutive evaluations stuck at the tip, less than an hour apart, an Active
      draft is outstanding; after `ticks` consecutive ones near the tip that fail any of the other
      conditions, none is. */
  lemma TipEvidenceDecides(flatWindow: Duration, ticks: nat, visits: seq<TipVisit>, s: EntityRef)
    requires 1 <= ticks <= U32_MAX && Monotone(visits)
    ensures var outs := OwnOutputs(visits, Run(TipMachine(flatWindow, ticks), visits).1, s);
            (StuckFor(Own(visits, s), ticks) ==> EndsActive(Emitted(outs)))
            && (OffFor(Own(visits, s), ticks) ==> !EndsActive(Emitted(outs)))
  {
    var own := Own(visits, s);
    SubjectsAreIndependent(TipMachine(flatWindow, ticks), visits, s);
    FlagIsLastDraft(flatWindow, ticks, own);
    if StuckFor(own, ticks) { SoloStuck(flatWindow, ticks, own, ticks); }
    if OffFor(own, ticks) { SoloOff(flatWindow, ticks, own, ticks); }
  }

  // ---- The flat-progress tracker -----------------------------------------------------------------------

  /** In every run, an entry in the rule's table remembers the anchor of its subject's life. */
  lemma TrackerIsAnchored(flatWindow: Duration, ticks: nat, visits: seq<TipVisit>, s: EntityRef)
    requires 1 <= ticks <= U32_MAX && Monotone(visits) && s in Run(TipMachine(flatWindow, ticks), visits).0
    ensures Remembers(Run(TipMachine(flatWindow, ticks), visits).0[s].core, Life(flatWindow, ticks, Own(visits, s)))
  {
    TableIsSolo(TipMachine(flatWindow, ticks), visits, s);
    SoloCounters(flatWindow, ticks, Own(visits, s));
  }

  /** Since the anchor, every sample stayed within a billionth of it. */
  lemma {:induction false} AnchorHolds(life: seq<TipVisit>)
    requires life != []
    ensures forall i :: AnchorOf(life) <= i < |life| ==>
              -0.000000001 <= life[i].input.progress - life[AnchorOf(life)].input.progress <= 0.000000001
    decreases |life|
  {
    var front := life[..|life| - 1];
    if front != [] {
      AnchorHolds(front);
      assert forall i :: 0 <= i < |front| ==> front[i] == life[i];
    }
  }

  /** The progress has been the same since visit `j`. */
  predicate Unmoved(life: seq<TipVisit>, j: nat)
    requires j < |life|
  {
    forall i :: j <= i < |life| ==> life[i].input.progress == life[j].input.progress
  }

  /** A progress that does not move does not move the anchor. */
  lemma {:induction false} FlatKeepsAnchor(life: seq<TipVisit>, j: nat)
    requires j < |life| && Unmoved(life, j)
    ensures AnchorOf(life) <= j
    ensures -0.000000001 <= life[j].input.progress - life[AnchorOf(life)].input.progress <= 0.000000001
    decreases |life|
  {
    var front := life[..|life| - 1];
    if j < |front| {
      FlatKeepsAnchor(front, j);
    } else if front != [] {
      assert AnchorOf(life) <= j;
    }
  }

  lemma StallOfLife(flatWindow: Duration, life: seq<TipVisit>, j: nat)
    requires Monotone(life) && j < |life| && !NearTip(life[|life| - 1].input)
    ensures Fires(flatWindow, life) <==> life[|life| - 1].at >= life[AnchorOf(life)].at + flatWindow
    ensures Unmoved(life, j) && life[|life| - 1].at >= life[j].at + flatWindow ==> Fires(flatWindow, life)
  {
    var a := AnchorOf(life);
    assert a == |life| - 1 || life[a].at <= life[|life| - 1].at;
    if Unmoved(life, j) {
      FlatKeepsAnchor(life, j);
      assert a == j || life[a].at <= life[j].at;
    }
  }

  lemma AnchoredPairs(life: seq<TipVisit>)
    requires life != []
    ensures forall i, k :: AnchorOf(life) <= i < |life| && AnchorOf(life) <= k < |life| ==>
              -0.000000002 <= life[i].input.progress - life[k].input.progress <= 0.000000002
  {
    AnchorHolds(life);
  }

  lemma {:induction false} OwnIsMonotone(visits: seq<TipVisit>, s: EntityRef)
    requires Monotone(visits)
    ensures Monotone(Own(visits, s))
    ensures forall i :: 0 <= i < |Own(visits, s)| ==> Own(visits, s)[i].at <= visits[|visits| - 1].at
    decreases |visits|
  {
    if visits != [] {
      OwnIsMonotone(visits[..|visits| - 1], s);
    }
  }

  lemma {:induction false} LifeIsSuffix(flatWindow: Duration, ticks: nat, own: seq<TipVisit>)
    ensures var life := Life(flatWindow, ticks, own); |life| <= |own| && life == own[|own| - |life|..]
    decreases |own|
  {
    if own != [] {
      LifeIsSuffix(flatWindow, ticks, own[..|own| - 1]);
    }
  }

  lemma LifeIsMonotone(flatWindow: Duration, ticks: nat, visits: seq<TipVisit>, s: EntityRef)
    requires Monotone(visits)
    ensures Monotone(Life(flatWindow, ticks, Own(visits, s)))
  {
    OwnIsMonotone(visits, s);
    LifeIsSuffix(flatWindow, ticks, Own(visits, s));
  }

  /** Far from the tip, an evaluation fires exactly when its time is at least the flat window past
      the anchor of the subject's life. Then the samples since the anchor differ pairwise by at
      most two billionths; and it does fire if the progress has not moved at all for the window. */
  lemma StallMeansFlat(flatWindow: Duration, ticks: nat, visits: seq<TipVisit>, s: EntityRef, j: nat)
    requires Monotone(visits) && Own(visits, s) != []
    requires j < |Life(flatWindow, ticks, Own(visits, s))|
    requires var own := Own(visits, s); !NearTip(own[|own| - 1].input)
    ensures var life := Life(flatWindow, ticks, Own(visits, s));
            var last, a := life[|life| - 1], AnchorOf(life);
            (Fires(flatWindow, life) <==> last.at >= life[a].at + flatWindow)
            && (forall i, k :: a <= i < |life| && a <= k < |life| ==>
                  -0.000000002 <= life[i].input.progress - life[k].input.progress <= 0.000000002)
            && (Unmoved(life, j) && last.at >= life[j].at + flatWindow ==> Fires(flatWindow, life))
  {
    var life := Life(flatWindow, ticks, Own(visits, s));
    LifeIsMonotone(flatWindow, ticks, visits, s);
    StallOfLife(flatWindow, life, j);
    AnchoredPairs(life);
  }

  /** The drafts of every subject alternate, starting with Active, whatever the gaps. */
  lemma TipDraftsAlternate(flatWindow: Duration, ticks: nat, visits: seq<TipVisit>, s: EntityRef)
    requires Monotone(visits)
    ensures Alternates(Emitted(OwnOutputs(visits, Run(TipMachine(flatWindow, ticks), visits).1, s)))
  {
    TipMachineToggles(flatWindow, ticks);
    DraftsAlternate(TipMachine(flatWindow, ticks), visits, s);
  }
}

/** The incident engine: one open incident per fingerprint, opened, escalated and resolved
    by the drafts of the diagnostic rules. */
module Engine {
  import opened Types
  import opened Kinds

  datatype Event =
    | SignalRecorded(observation: Observation)
    | IncidentTouched(incident: Incident)
    | Lifecycle(event: LifecycleEvent)
    | DraftBelowConfidenceFloor(kind: string, confidence: Confidence, floor: Confidence)

  type OpenMap = map<Fingerprint, Incident>
  type Outcome = Result<seq<Event>, DraftError>

  /** A draft with the wall-clock time and the two fresh ids used while recording it. */
  datatype Command = Command(draft: Draft, now: Timestamp, observationId: Id, incidentId: Id)

  function FingerprintOf(d: Draft): (fp: Fingerprint)
    ensures fp.subject == d.subject && fp.kind == d.kind && fp.dimension == d.dimension
  {
    Fingerprint(d.subject, d.kind, d.dimension)
  }

  function SeverityFromSignal(s: SignalSeverity): IncidentSeverity {
    match s
    case Info => IncidentSeverity.Info
    case Warning => IncidentSeverity.Warning
    case Critical => IncidentSeverity.Critical
  }

  function MaxSeverity(a: IncidentSeverity, b: IncidentSeverity): IncidentSeverity {
    if SeverityRank(a) >= SeverityRank(b) then a else b
  }

  function ConfidenceRank(c: Confidence): nat {
    match c
    case Low => 0
    case Medium => 1
    case High => 2
  }

  function SignalObservationOf(c: Command): Observation {
    var d := c.draft;
    Observation(c.observationId, c.now, d.subject,
                IncidentSignal(SignalObservation(d.signal, d.kind, d.severity, d.status, d.confidence, d.evidence)))
  }

  // ---- Specification: the engine as one small machine per fingerprint ------------------

  function Lookup(open: OpenMap, fp: Fingerprint): Option<Incident> {
    if fp in open then Some(open[fp]) else None
  }

  function Put(open: OpenMap, fp: Fingerprint, slot: Option<Incident>): OpenMap {
    match slot
    case Some(incident) => open[fp := incident]
    case None => open - {fp}
  }

  function NewIncident(c: Command): Incident {
    var d := c.draft;
    Incident(c.incidentId, FingerprintOf(d), d.kind, d.subject, SeverityFromSignal(d.severity), Open,
             c.now, c.now, None, [c.observationId], d.evidence, d.signal)
  }

  function Absorb(incident: Incident, c: Command): Incident {
    incident.(severity := MaxSeverity(incident.severity, SeverityFromSignal(c.draft.severity)),
              updatedAt := c.now,
              signalObservationIds := incident.signalObservationIds + [c.observationId],
              evidence := incident.evidence + c.draft.evidence)
  }

  function Close(incident: Incident, c: Command): Incident {
    incident.(status := Resolved, updatedAt := c.now, resolvedAt := Some(c.now),
              signalObservationIds := incident.signalObservationIds + [c.observationId])
  }

  /** One accepted draft applied to the slot of its fingerprint. */
  function SlotStep(floor: Confidence, slot: Option<Incident>, c: Command): (Option<Incident>, seq<Event>) {
    var d := c.draft;
    var recorded := SignalRecorded(SignalObservationOf(c));
    match d.status
    case Active =>
      if ConfidenceRank(d.confidence) < ConfidenceRank(floor) then
        (slot, [recorded, DraftBelowConfidenceFloor(d.kind, d.confidence, floor)])
      else (
        match slot
        case None =>
          var created := NewIncident(c);
          (Some(created), [recorded, IncidentTouched(created), Lifecycle(Opened(created))])
        case Some(current) =>
          var touched := Absorb(current, c);
          (Some(touched),
           [recorded, IncidentTouched(touched)]
           + if SeverityRank(touched.severity) > SeverityRank(current.severity)
             then [Lifecycle(Escalated(touched, current.severity, touched.severity))] else [])
      )
    case Cleared =>
      match slot
      case None => (None, [recorded])
      case Some(current) =>
        var closed := Close(current, c);
        (None, [recorded, IncidentTouched(closed), Lifecycle(ResolvedEvent(closed))])
  }

  function Record(kinds: Registry, open: OpenMap, c: Command): (OpenMap, Outcome) {
    match ValidateDraft(kinds, c.draft)
    case Some(error) => (open, Err(error))
    case None =>
      var fp := FingerprintOf(c.draft);
      var (slot, events) := SlotStep(kinds[c.draft.kind].minOpenConfidence, Lookup(open, fp), c);
      (Put(open, fp, slot), Ok(events))
  }

  // ---- The engine --------------------------------------------------------------------------

  predicate DistinctFingerprints(incidents: seq<Incident>) {
    forall i, j :: 0 <= i < j < |incidents| ==> incidents[i].fingerprint != incidents[j].fingerprint
  }

  /** `open` holds exactly the listed incidents, each under its fingerprint. */
  ghost predicate IsRebuilt(incidents: seq<Incident>, open: OpenMap) {
    (forall i :: 0 <= i < |incidents| ==>
       incidents[i].fingerprint in open && open[incidents[i].fingerprint] == incidents[i])
    && forall fp :: fp in open ==> exists i :: 0 <= i < |incidents| && incidents[i].fingerprint == fp
  }

  /** The start-up step that turns the stored open incidents into the engine's map. The
      program panics where this returns `Err`, naming the duplicated fingerprint. */
  method Rebuild(incidents: seq<Incident>) returns (r: Result<OpenMap, Fingerprint>)
    ensures r.Ok? <==> DistinctFingerprints(incidents)
    ensures r.Ok? ==> IsRebuilt(incidents, r.value)
    ensures r.Err? ==> exists i, j :: 0 <= i < j < |incidents| && incidents[i].fingerprint == r.error
                                      && incidents[j].fingerprint == r.error
  {
    var open: OpenMap := map[];
    for i := 0 to |incidents|
      invariant DistinctFingerprints(incidents[..i])
      invariant forall j :: 0 <= j < i ==>
                  incidents[j].fingerprint in open && open[incidents[j].fingerprint] == incidents[j]
      invariant forall fp :: fp in open ==> exists j :: 0 <= j < i && incidents[j].fingerprint == fp
    {
      var fp := incidents[i].fingerprint;
      if fp in open {
        return Err(fp);
      }
      open := open[fp := incidents[i]];
    }
    return Ok(open);
  }

  class IncidentEngine {
    const kinds: Registry
    var openIncidents: OpenMap

    constructor (kinds: Registry, open: OpenMap)
      ensures this.kinds == kinds && openIncidents == open
    {
      this.kinds := kinds;
      openIncidents := open;
    }

    method HandleRecordSignal(draft: Draft, now: Timestamp, observationId: Id, incidentId: Id)
        returns (r: Outcome)
      modifies this
      ensures (openIncidents, r) == Record(kinds, old(openIncidents), Command(draft, now, observationId, incidentId))
    {
      var refused := ValidateDraft(kinds, draft);
      if refused.Some? {
        return Err(refused.value);
      }
      var floor := kinds[draft.kind].minOpenConfidence;
      var fingerprint := FingerprintOf(draft);
      var observation := SignalObservationOf(Command(draft, now, observationId, incidentId));
      var events := [SignalRecorded(observation)];
      ghost var spec := SlotStep(floor, Lookup(openIncidents, fingerprint), Command(draft, now, observationId, incidentId));

      match draft.status {
        case Active =>
          if ConfidenceRank(draft.confidence) < ConfidenceRank(floor) {
            events := events + [DraftBelowConfidenceFloor(draft.kind, draft.confidence, floor)];
            assert Put(openIncidents, fingerprint, Lookup(openIncidents, fingerprint)) == openIncidents;
            assert events == spec.1;
            return Ok(events);
          }
          var draftSeverity := SeverityFromSignal(draft.severity);
          if fingerprint in openIncidents {
            var existing := openIncidents[fingerprint];
            var previous := existing.severity;
            existing := existing.(severity := MaxSeverity(previous, draftSeverity));
            existing := existing.(updatedAt := now);
            existing := existing.(signalObservationIds := existing.signalObservationIds + [observationId]);
            existing := existing.(evidence := existing.evidence + draft.evidence);
            openIncidents := openIncidents[fingerprint := existing];
            events := events + [IncidentTouched(existing)];
            if SeverityRank(existing.severity) > SeverityRank(previous) {
              events := events + [Lifecycle(Escalated(existing, previous, existing.severity))];
            }
            assert events == spec.1;
          } else {
            var created := Incident(incidentId, fingerprint, draft.kind, draft.subject, draftSeverity, Open,
                                  now, now, None, [observationId], draft.evidence, draft.signal);
            openIncidents := openIncidents[fingerprint := created];
            events := events + [IncidentTouched(created)];
            events := events + [Lifecycle(Opened(created))];
            assert events == spec.1;
          }
        case Cleared =>
          if fingerprint in openIncidents {
            var existing := openIncidents[fingerprint];
            openIncidents := openIncidents - {fingerprint};
            existing := existing.(status := Resolved, updatedAt := now, resolvedAt := Some(now));
            existing := existing.(signalObservationIds := existing.signalObservationIds + [observationId]);
            events := events + [IncidentTouched(existing)];
            events := events + [Lifecycle(ResolvedEvent(existing))];
            assert events == spec.1;
          } else {
            assert openIncidents - {fingerprint} == openIncidents;
          }
      }
      return Ok(events);
    }
  }

  // ---- Whole runs ---------------------------------------------------------------------------

  function Run(kinds: Registry, open: OpenMap, cmds: seq<Command>): (r: (OpenMap, seq<Outcome>))
    ensures |r.1| == |cmds|
  {
    if cmds == [] then (open, [])
    else
      var (before, outs) := Run(kinds, open, cmds[..|cmds| - 1]);
      var (after, out) := Record(kinds, before, cmds[|cmds| - 1]);
      (after, outs + [out])
  }

  function CommandsFor(cmds: seq<Command>, fp: Fingerprint): seq<Command> {
    if cmds == [] then []
    else
      var front, last := CommandsFor(cmds[..|cmds| - 1], fp), cmds[|cmds| - 1];
      if FingerprintOf(last.draft) == fp then front + [last] else front
  }

  function OutcomesFor(cmds: seq<Command>, outs: seq<Outcome>, fp: Fingerprint): seq<Outcome>
    requires |cmds| == |outs|
  {
    if cmds == [] then []
    else
      var front, last := OutcomesFor(cmds[..|cmds| - 1], outs[..|cmds| - 1], fp), cmds[|cmds| - 1];
      if FingerprintOf(last.draft) == fp then front + [outs[|cmds| - 1]] else front
  }

  lemma RecordIsLocal(kinds: Registry, a: OpenMap, b: OpenMap, c: Command, fp: Fingerprint)
    requires Lookup(a, fp) == Lookup(b, fp)
    ensures FingerprintOf(c.draft) != fp ==> Lookup(Record(kinds, a, c).0, fp) == Lookup(a, fp)
    ensures FingerprintOf(c.draft) == fp ==>
              Lookup(Record(kinds, a, c).0, fp) == Lookup(Record(kinds, b, c).0, fp)
              && Record(kinds, a, c).1 == Record(kinds, b, c).1
  {
  }

  /** Fingerprints do not interfere: whatever else is interleaved, accepted or refused, what
      happens to one fingerprint is what its own drafts alone would do. */
  lemma {:induction false} NonInterference(kinds: Registry, open: OpenMap, cmds: seq<Command>, fp: Fingerprint)
    ensures var all, own := Run(kinds, open, cmds), Run(kinds, open, CommandsFor(cmds, fp));
            Lookup(all.0, fp) == Lookup(own.0, fp) && OutcomesFor(cmds, all.1, fp) == own.1
    decreases |cmds|
  {
    if cmds != [] {
      var front, last := cmds[..|cmds| - 1], cmds[|cmds| - 1];
      NonInterference(kinds, open, front, fp);
      var own := CommandsFor(front, fp);
      RecordIsLocal(kinds, Run(kinds, open, front).0, Run(kinds, open, own).0, last, fp);
      var outs := Run(kinds, open, cmds).1;
      assert outs[..|front|] == Run(kinds, open, front).1;
      assert (own + [last])[..|own|] == own;
    }
  }

  // ---- What an open incident is ------------------------------------------------------------

  predicate Accepted(kinds: Registry, c: Command) {
    ValidateDraft(kinds, c.draft).None?
  }

  /** Low < Medium < High. */
  predicate ConfidentEnough(confidence: Confidence, floor: Confidence) {
    floor == Low || confidence == High || confidence == floor
  }

  /** `c` counts towards an incident: accepted, Active, at or above the kind's floor. */
  predicate Qualifies(kinds: Registry, c: Command) {
    Accepted(kinds, c) && c.draft.status == Active
    && ConfidentEnough(c.draft.confidence, kinds[c.draft.kind].minOpenConfidence)
  }

  /** The qualifying commands of `fp` after its last accepted Cleared. */
  function Current(kinds: Registry, cmds: seq<Command>, fp: Fingerprint): seq<Command> {
    if cmds == [] then []
    else NextCurrent(kinds, Current(kinds, cmds[..|cmds| - 1], fp), cmds[|cmds| - 1], fp)
  }

  function NextCurrent(kinds: Registry, q: seq<Command>, c: Command, fp: Fingerprint): seq<Command> {
    if FingerprintOf(c.draft) != fp || !Accepted(kinds, c) then q
    else if c.draft.status == Cleared then []
    else if Qualifies(kinds, c) then q + [c]
    else q
  }

  function ObservationIds(q: seq<Command>): seq<Id> {
    seq(|q|, i requires 0 <= i < |q| => q[i].observationId)
  }

  function Evidence(q: seq<Command>): seq<Id> {
    if q == [] then [] else Evidence(q[..|q| - 1]) + q[|q| - 1].draft.evidence
  }

  /** The worst severity drafted in `q`. */
  ghost predicate IsMaxSeverity(s: IncidentSeverity, q: seq<Command>) {
    (s == IncidentSeverity.Critical <==> exists i :: 0 <= i < |q| && q[i].draft.severity == SignalSeverity.Critical)
    && (s == IncidentSeverity.Info <==> forall i :: 0 <= i < |q| ==> q[i].draft.severity == SignalSeverity.Info)
  }

  /** `incident` is the account of the non-empty qualifying run `q`. */
  ghost predicate Summarizes(incident: Incident, fp: Fingerprint, q: seq<Command>)
    requires q != []
  {
    Describes(incident, fp, q)
    && incident.status == Open && incident.resolvedAt == None
    && incident.updatedAt == q[|q| - 1].now
    && incident.signalObservationIds == ObservationIds(q)
  }

  /** `incident` is the account of `q`, closed by the Cleared draft `c`. */
  ghost predicate SummarizesClosed(incident: Incident, fp: Fingerprint, q: seq<Command>, c: Command)
    requires q != []
  {
    Describes(incident, fp, q)
    && incident.status == Resolved && incident.resolvedAt == Some(c.now)
    && incident.updatedAt == c.now
    && incident.signalObservationIds == ObservationIds(q) + [c.observationId]
  }

  /** What closing does not change of the account. */
  ghost predicate Describes(incident: Incident, fp: Fingerprint, q: seq<Command>)
    requires q != []
  {
    incident.id == q[0].incidentId
    && incident.fingerprint == fp && incident.kind == fp.kind && incident.subject == fp.subject
    && IsMaxSeverity(incident.severity, q)
    && incident.openedAt == q[0].now
    && incident.evidence == Evidence(q)
    && incident.summary == q[0].draft.signal
  }

  /** After any run from an empty engine, a fingerprint is open exactly when a qualifying
      draft followed its last Cleared, and its incident is the account of those drafts. */
  lemma {:induction false} OpenIncidentIsSummary(kinds: Registry, cmds: seq<Command>, fp: Fingerprint)
    ensures Accounts(Run(kinds, map[], cmds).0, fp, Current(kinds, cmds, fp))
    decreases |cmds|
  {
    if cmds != [] {
      var front := cmds[..|cmds| - 1];
      OpenIncidentIsSummary(kinds, front, fp);
      RecordKeepsAccount(kinds, Run(kinds, map[], front).0, cmds[|cmds| - 1], fp, Current(kinds, front, fp));
    }
  }

  ghost predicate Accounts(open: OpenMap, fp: Fingerprint, q: seq<Command>) {
    (fp in open <==> q != []) && (q != [] ==> Summarizes(open[fp], fp, q))
  }

  lemma RecordKeepsAccount(kinds: Registry, open: OpenMap, c: Command, fp: Fingerprint, q: seq<Command>)
    requires Accounts(open, fp, q)
    ensures Accounts(Record(kinds, open, c).0, fp, NextCurrent(kinds, q, c, fp))
  {
    if FingerprintOf(c.draft) == fp && Qualifies(kinds, c) {
      if q == [] {
        NewSummary(c);
        assert q + [c] == [c];
      } else {
        ExtendSummary(open[fp], fp, q, c);
      }
    } else {
      RecordIsLocal(kinds, open, open, c, fp);
    }
  }

  lemma NewSummary(c: Command)
    ensures Summarizes(NewIncident(c), FingerprintOf(c.draft), [c])
  {
    var q := [c];
    assert q[..0] == [] && Evidence(q) == [] + c.draft.evidence;
    assert ObservationIds(q) == [c.observationId];
    assert q[0] == c;
  }

  lemma ExtendSummary(incident: Incident, fp: Fingerprint, q: seq<Command>, c: Command)
    requires q != [] && Summarizes(incident, fp, q)
    ensures Summarizes(Absorb(incident, c), fp, q + [c])
  {
    var q' := q + [c];
    assert q'[..|q|] == q;
    assert ObservationIds(q') == ObservationIds(q) + [c.observationId];
    assert q'[|q|] == c;
    MaxSeverityGrows(incident.severity, q, c);
  }

  lemma MaxSeverityGrows(s: IncidentSeverity, q: seq<Command>, c: Command)
    requires IsMaxSeverity(s, q)
    ensures IsMaxSeverity(MaxSeverity(s, SeverityFromSignal(c.draft.severity)), q + [c])
  {
    var q' := q + [c];
    assert q'[|q|] == c;
    assert forall i :: 0 <= i < |q| ==> q'[i] == q[i];
    if i: nat :| i < |q| && q[i].draft.severity == SignalSeverity.Critical {
      assert q'[i].draft.severity == SignalSeverity.Critical;
    }
  }

  /** The observation a recorded draft leaves: at the draft's time, about its subject, with all
      it says. */
  predicate Reports(o: Observation, c: Command) {
    o.id == c.observationId && o.observedAt == c.now && o.subject == c.draft.subject
    && o.payload.IncidentSignal?
    && var s := o.payload.signal;
       s.signal == c.draft.signal && s.incidentKind == c.draft.kind && s.severity == c.draft.severity
       && s.status == c.draft.status && s.confidence == c.draft.confidence && s.evidence == c.draft.evidence
  }

  /** The events of the accepted command `c` about `fp`, when `q` are the qualifying commands
      since its last Cleared. */
  ghost predicate EventsTell(kinds: Registry, q: seq<Command>, c: Command, fp: Fingerprint, events: seq<Event>)
    requires Accepted(kinds, c)
  {
    var floor := kinds[c.draft.kind].minOpenConfidence;
    events != [] && events[0].SignalRecorded? && Reports(events[0].observation, c)
    && if Qualifies(kinds, c) then
         |events| >= 2 && events[1].IncidentTouched?
         && Summarizes(events[1].incident, fp, q + [c])
         && if q == [] then |events| == 3 && events[2] == Lifecycle(Opened(events[1].incident))
            else Escalates(q, events[1].incident, events[2..])
       else if c.draft.status == Active then
         events[1..] == [DraftBelowConfidenceFloor(c.draft.kind, c.draft.confidence, floor)]
       else if q == [] then |events| == 1
       else
         |events| == 3 && events[1].IncidentTouched? && SummarizesClosed(events[1].incident, fp, q, c)
         && events[2] == Lifecycle(ResolvedEvent(events[1].incident))
  }

  /** An escalation is announced exactly when the severity changed. */
  ghost predicate Escalates(q: seq<Command>, incident: Incident, rest: seq<Event>) {
    if IsMaxSeverity(incident.severity, q) then rest == []
    else |rest| == 1 && rest[0].Lifecycle? && rest[0].event.Escalated?
         && rest[0].event.incident == incident && rest[0].event.newSeverity == incident.severity
         && IsMaxSeverity(rest[0].event.previousSeverity, q)
  }

  lemma MaxSeverityUnique(a: IncidentSeverity, b: IncidentSeverity, q: seq<Command>)
    requires IsMaxSeverity(a, q) && IsMaxSeverity(b, q)
    ensures a == b
  {
  }

  lemma SlotStepTells(kinds: Registry, slot: Option<Incident>, q: seq<Command>, c: Command)
    requires Accepted(kinds, c)
    requires var fp := FingerprintOf(c.draft);
             (slot.Some? <==> q != []) && (q != [] ==> Summarizes(slot.value, fp, q))
    ensures EventsTell(kinds, q, c, FingerprintOf(c.draft), SlotStep(kinds[c.draft.kind].minOpenConfidence, slot, c).1)
  {
    var fp, floor := FingerprintOf(c.draft), kinds[c.draft.kind].minOpenConfidence;
    var events := SlotStep(floor, slot, c).1;
    if Qualifies(kinds, c) {
      if q == [] {
        NewSummary(c);
        assert q + [c] == [c];
      } else {
        ExtendSummary(slot.value, fp, q, c);
        var touched := Absorb(slot.value, c);
        if IsMaxSeverity(touched.severity, q) {
          MaxSeverityUnique(touched.severity, slot.value.severity, q);
        }
      }
    }
  }

  /** What the engine answers to a command after any run from an empty engine: it is refused
      exactly when its draft is invalid; otherwise it tells the account of its fingerprint's
      drafts, open or just closed, in the order signal, touched incident, announcement. */
  lemma OutcomeIsAccount(kinds: Registry, cmds: seq<Command>, c: Command)
    ensures var (open, out) := Record(kinds, Run(kinds, map[], cmds).0, c);
            var fp := FingerprintOf(c.draft);
            (out.Ok? <==> Accepted(kinds, c))
            && (out.Ok? ==> EventsTell(kinds, Current(kinds, cmds, fp), c, fp, out.value))
            && (out.Err? ==> open == Run(kinds, map[], cmds).0 && ValidateDraft(kinds, c.draft) == Some(out.error))
  {
    var fp := FingerprintOf(c.draft);
    OpenIncidentIsSummary(kinds, cmds, fp);
    if Accepted(kinds, c) {
      SlotStepTells(kinds, Lookup(Run(kinds, map[], cmds).0, fp), Current(kinds, cmds, fp), c);
    }
  }

  /** The side effects of an accepted draft come in one order: the signal, then the touched
      incident, then the announcement of that same incident. */
  lemma SideEffectOrder(kinds: Registry, open: OpenMap, c: Command, i: nat)
    requires var out := Record(kinds, open, c).1; out.Ok? && i < |out.value|
    ensures var events := Record(kinds, open, c).1.value;
            (events[i].SignalRecorded? <==> i == 0)
            && events[0] == SignalRecorded(SignalObservationOf(c))
            && (events[i].Lifecycle? ==> i > 0 && events[i - 1] == IncidentTouched(events[i].event.incident))
  {
  }

  // ---- The language of lifecycle events ------------------------------------------------------

  function LifecycleIn(events: seq<Event>): seq<LifecycleEvent> {
    if events == [] then []
    else (if events[0].Lifecycle? then [events[0].event] else []) + LifecycleIn(events[1..])
  }

  /** The lifecycle events a run announced for `fp`, in order. */
  function Announced(cmds: seq<Command>, outs: seq<Outcome>, fp: Fingerprint): seq<LifecycleEvent>
    requires |cmds| == |outs|
  {
    if cmds == [] then []
    else
      var n := |cmds| - 1;
      Announced(cmds[..n], outs[..n], fp)
      + if FingerprintOf(cmds[n].draft) == fp && outs[n].Ok? then LifecycleIn(outs[n].value) else []
  }

  /** Opened, then escalations of the same incident that each strictly raise the severity
      announced before. */
  ghost predicate OpenBlock(b: seq<LifecycleEvent>) {
    b != [] && b[0].Opened?
    && forall i :: 1 <= i < |b| ==> Raises(b[i - 1], b[i])
  }

  predicate Raises(prev: LifecycleEvent, e: LifecycleEvent) {
    e.Escalated? && e.incident.id == prev.incident.id
    && e.previousSeverity == prev.incident.severity && e.newSeverity == e.incident.severity
    && !NotBelow(e.previousSeverity, e.newSeverity)
  }

  /** A block closed by the resolution of its incident at the last announced severity. */
  ghost predicate ClosedBlock(b: seq<LifecycleEvent>) {
    |b| >= 2 && OpenBlock(b[..|b| - 1])
    && b[|b| - 1].ResolvedEvent?
    && b[|b| - 1].incident.id == b[|b| - 2].incident.id
    && b[|b| - 1].incident.severity == b[|b| - 2].incident.severity
  }

  /** (Opened Escalated* Resolved)* */
  ghost predicate Blocks(w: seq<LifecycleEvent>) {
    w == [] || exists k :: 0 <= k < |w| && Blocks(w[..k]) && ClosedBlock(w[k..])
  }

  /** The history `w` of a fingerprint whose slot is now `slot`: complete blocks up to `k`,
      then, exactly while the slot is full, one open block whose last announcement carries
      the incident's id and severity. */
  ghost predicate History(w: seq<LifecycleEvent>, k: nat, slot: Option<Incident>) {
    k <= |w| && Blocks(w[..k])
    && match slot
       case None => k == |w|
       case Some(incident) =>
         OpenBlock(w[k..]) && w[|w| - 1].incident.id == incident.id
         && w[|w| - 1].incident.severity == incident.severity
  }

  /** From an empty engine, the announcements of every fingerprint form such a history. */
  lemma {:induction false} LifecycleLanguage(kinds: Registry, cmds: seq<Command>, fp: Fingerprint)
      returns (k: nat)
    ensures var (open, outs) := Run(kinds, map[], cmds);
            History(Announced(cmds, outs, fp), k, Lookup(open, fp))
    decreases |cmds|
  {
    if cmds == [] {
      k := 0;
    } else {
      var n := |cmds| - 1;
      var front, last := cmds[..n], cmds[n];
      k := LifecycleLanguage(kinds, front, fp);
      var (before, outs0) := Run(kinds, map[], front);
      var (after, outs) := Run(kinds, map[], cmds);
      assert outs[..n] == outs0;
      var w0, w := Announced(front, outs0, fp), Announced(cmds, outs, fp);
      if FingerprintOf(last.draft) == fp && Accepted(kinds, last) {
        k := ExtendHistory(kinds[last.draft.kind].minOpenConfidence, Lookup(before, fp), last, w0, k);
      } else {
        assert w == w0;
        RecordIsLocal(kinds, before, before, last, fp);
      }
    }
  }

  /** What one slot step announces. */
  lemma StepAnnounces(floor: Confidence, slot: Option<Incident>, c: Command)
    ensures var (slot', events) := SlotStep(floor, slot, c);
            var said := LifecycleIn(events);
            |said| <= 1
            && (said == [] ==>
                  slot'.None? == slot.None?
                  && (slot.Some? ==> slot'.value.id == slot.value.id && slot'.value.severity == slot.value.severity))
            && (said != [] ==>
                  match said[0]
                  case Opened(i) => slot.None? && slot' == Some(i)
                  case Escalated(i, p, n) =>
                    slot.Some? && slot' == Some(i) && i.id == slot.value.id && p == slot.value.severity
                    && n == i.severity && SeverityRank(n) > SeverityRank(p)
                  case ResolvedEvent(i) =>
                    slot.Some? && slot'.None? && i.id == slot.value.id && i.severity == slot.value.severity)
  {
    LifecycleInSteps(SlotStep(floor, slot, c).1);
  }

  lemma ExtendHistory(floor: Confidence, slot: Option<Incident>, c: Command, w: seq<LifecycleEvent>, k: nat)
      returns (k': nat)
    requires History(w, k, slot)
    ensures var (slot', events) := SlotStep(floor, slot, c);
            History(w + LifecycleIn(events), k', slot')
  {
    StepAnnounces(floor, slot, c);
    var slot', said := SlotStep(floor, slot, c).0, LifecycleIn(SlotStep(floor, slot, c).1);
    k' := k;
    if said == [] {
      assert w + said == w;
    } else {
      var e := said[0];
      assert said == [e];
      match e
      case Opened(i) => OpenHistory(w, k, e);
      case Escalated(_, _, _) => EscalateHistory(w, k, slot.value, e);
      case ResolvedEvent(_) =>
        ResolveHistory(w, k, slot.value, e);
        k' := |w| + 1;
    }
  }

  lemma OpenHistory(w: seq<LifecycleEvent>, k: nat, e: LifecycleEvent)
    requires History(w, k, None) && e.Opened?
    ensures History(w + [e], k, Some(e.incident))
  {
    var w' := w + [e];
    assert w'[..k] == w[..k] && w'[k..] == [e];
  }

  lemma EscalateHistory(w: seq<LifecycleEvent>, k: nat, incident: Incident, e: LifecycleEvent)
    requires History(w, k, Some(incident)) && Raises(w[|w| - 1], e)
    ensures History(w + [e], k, Some(e.incident))
  {
    var w' := w + [e];
    assert w'[..k] == w[..k] && w'[k..] == w[k..] + [e];
    ExtendOpenBlock(w[k..], e);
  }

  lemma ResolveHistory(w: seq<LifecycleEvent>, k: nat, incident: Incident, e: LifecycleEvent)
    requires History(w, k, Some(incident)) && e.ResolvedEvent?
    requires e.incident.id == incident.id && e.incident.severity == incident.severity
    ensures History(w + [e], |w| + 1, None)
  {
    var w' := w + [e];
    var b := w'[k..];
    assert b == w[k..] + [e];
    assert b[..|b| - 1] == w[k..] && b[|b| - 2] == w[|w| - 1];
    assert w'[..k] == w[..k];
    assert Blocks(w'[..k]) && ClosedBlock(w'[k..]);
    assert w'[..|w| + 1] == w';
  }

  lemma ExtendOpenBlock(b: seq<LifecycleEvent>, e: LifecycleEvent)
    requires OpenBlock(b) && Raises(b[|b| - 1], e)
    ensures OpenBlock(b + [e])
  {
    var b' := b + [e];
    forall i | 1 <= i < |b'| ensures Raises(b'[i - 1], b'[i]) {
      if i < |b| { assert Raises(b[i - 1], b[i]); }
    }
  }

  lemma LifecycleInSteps(events: seq<Event>)
    requires 1 <= |events| <= 3
    requires forall i :: 0 <= i < |events| && i < 2 ==> !events[i].Lifecycle?
    ensures LifecycleIn(events) == if |events| == 3 && events[2].Lifecycle? then [events[2].event] else []
  {
    var a := events[1..];
    if |events| == 1 {
      assert a == [];
    } else if |events| == 2 {
      assert a[1..] == [];
    } else {
      var b := a[1..];
      assert b == [events[2]] && b[1..] == [];
      assert LifecycleIn(a) == LifecycleIn(b);
      assert LifecycleIn(b) == (if b[0].Lifecycle? then [b[0].event] else []) + LifecycleIn(b[1..]);
    }
  }

  /** An incident is announced at most twice as escalated before it is resolved. */
  lemma {:induction false} AtMostTwoEscalations(b: seq<LifecycleEvent>)
    requires OpenBlock(b)
    ensures |b| <= 3
    ensures SeverityRank(b[|b| - 1].incident.severity) >= |b| - 1
    decreases |b|
  {
    if |b| > 1 {
      var front := b[..|b| - 1];
      forall i | 1 <= i < |front| ensures Raises(front[i - 1], front[i]) {
        assert Raises(b[i - 1], b[i]);
      }
      AtMostTwoEscalations(front);
      assert Raises(b[|b| - 2], b[|b| - 1]);
    }
  }
}

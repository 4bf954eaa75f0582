/** The durable copy of the open incidents: written through on every touch, swept by
    retention, read back at start-up. */
module Mirror {
  import opened Types
  import opened Kinds
  import opened Engine

  type Rows = map<Id, Incident>

  // ---- The repository ------------------------------------------------------------------

  predicate Keyed(rows: Rows) {
    forall id :: id in rows ==> rows[id].id == id
  }

  predicate SortedByOpening(incidents: seq<Incident>) {
    forall i, j :: 0 <= i < j < |incidents| ==> incidents[i].openedAt <= incidents[j].openedAt
  }

  /** `out` lists the non-resolved rows among `ids`, each once, oldest first; ties in any order. */
  ghost predicate Lists(rows: Rows, ids: set<Id>, out: seq<Incident>) {
    SortedByOpening(out)
    && (forall i :: 0 <= i < |out| ==>
          out[i].id in ids && out[i].id in rows && rows[out[i].id] == out[i] && out[i].status != Resolved)
    && (forall i, j :: 0 <= i < j < |out| ==> out[i].id != out[j].id)
    && forall id :: id in ids && id in rows && rows[id].status != Resolved ==> rows[id] in out
  }

  ghost predicate IsOpenListing(rows: Rows, out: seq<Incident>) {
    Lists(rows, rows.Keys, out)
  }

  predicate Expired(incident: Incident, cutoff: Timestamp) {
    incident.resolvedAt.Some? && incident.resolvedAt.value < cutoff
  }

  function Swept(rows: Rows, cutoff: Timestamp): Rows {
    map id | id in rows && !Expired(rows[id], cutoff) :: rows[id]
  }

  method InsertByOpening(sorted: seq<Incident>, incident: Incident) returns (out: seq<Incident>, at: nat)
    requires SortedByOpening(sorted)
    ensures at <= |sorted| && out == sorted[..at] + [incident] + sorted[at..]
    ensures SortedByOpening(out)
  {
    at := 0;
    while at < |sorted| && sorted[at].openedAt <= incident.openedAt
      invariant 0 <= at <= |sorted|
      invariant forall i :: 0 <= i < at ==> sorted[i].openedAt <= incident.openedAt
    {
      at := at + 1;
    }
    out := sorted[..at] + [incident] + sorted[at..];
  }

  lemma InsertedAt(out: seq<Incident>, x: Incident, at: nat, i: nat)
    requires at <= |out| && i <= |out|
    ensures (out[..at] + [x] + out[at..])[i] == if i < at then out[i] else if i == at then x else out[i - 1]
  {
  }

  lemma InsertedKeepsAll(out: seq<Incident>, x: Incident, at: nat, y: Incident)
    requires at <= |out| && (y == x || y in out)
    ensures y in out[..at] + [x] + out[at..]
  {
    assert out == out[..at] + out[at..];
  }

  lemma ListsOneMore(rows: Rows, ids: set<Id>, out: seq<Incident>, id: Id, out': seq<Incident>, at: nat)
    requires Keyed(rows) && Lists(rows, ids, out) && id in rows && id !in ids
    requires if rows[id].status == Resolved then out' == out
             else at <= |out| && out' == out[..at] + [rows[id]] + out[at..] && SortedByOpening(out')
    ensures Lists(rows, ids + {id}, out')
  {
    var x := rows[id];
    if x.status != Resolved {
      forall i | 0 <= i < |out'|
        ensures out'[i].id in ids + {id} && out'[i].id in rows && rows[out'[i].id] == out'[i] && out'[i].status != Resolved
      {
        InsertedAt(out, x, at, i);
      }
      forall i, j | 0 <= i < j < |out'| ensures out'[i].id != out'[j].id {
        InsertedAt(out, x, at, i);
        InsertedAt(out, x, at, j);
      }
      forall k | k in ids + {id} && k in rows && rows[k].status != Resolved ensures rows[k] in out' {
        InsertedKeepsAll(out, x, at, rows[k]);
      }
    }
  }

  class IncidentRepository {
    var rows: Rows

    constructor ()
      ensures rows == map[]
    {
      rows := map[];
    }

    method Save(incident: Incident)
      modifies this
      ensures rows == old(rows)[incident.id := incident]
    {
      rows := rows[incident.id := incident];
    }

    method LoadOpen() returns (out: seq<Incident>)
      requires Keyed(rows)
      ensures IsOpenListing(rows, out)
    {
      out := [];
      var todo := rows.Keys;
      while todo != {}
        invariant todo <= rows.Keys && Lists(rows, rows.Keys - todo, out)
        decreases |todo|
      {
        var id :| id in todo;
        ghost var before, done := out, rows.Keys - todo;
        todo := todo - {id};
        assert rows.Keys - todo == done + {id};
        var at := 0;
        if rows[id].status != Resolved {
          out, at := InsertByOpening(out, rows[id]);
        }
        ListsOneMore(rows, done, before, id, out, at);
      }
      assert rows.Keys - todo == rows.Keys;
    }

    /** The incident part of a retention sweep: without a limit nothing goes; with one, a row goes
        exactly when it was resolved longer ago than the limit, or than 64 bits of nanoseconds. */
    method SweepIncidents(maxAge: Option<Duration>, now: Timestamp)
      modifies this
      ensures forall id :: id in rows ==> id in old(rows) && rows[id] == old(rows)[id]
      ensures forall id :: id in old(rows) ==>
                (id !in rows <==> maxAge.Some? && old(rows)[id].resolvedAt.Some?
                                  && (now - old(rows)[id].resolvedAt.value > maxAge.value
                                      || now - old(rows)[id].resolvedAt.value > 0x7FFF_FFFF_FFFF_FFFF))
      ensures rows == if maxAge.None? then old(rows)
                      else Swept(old(rows), now - if maxAge.value <= I64_MAX then maxAge.value else I64_MAX)
    {
      if maxAge.Some? {
        var cutoff := now - if maxAge.value <= I64_MAX then maxAge.value else I64_MAX;
        rows := map id | id in rows && !(rows[id].resolvedAt.Some? && rows[id].resolvedAt.value < cutoff) :: rows[id];
      }
    }
  }

  const RETRY_DELAYS_MS: seq<nat> := [100, 500]

  /** One try to save: done; written but reported as failed; or not written. */
  datatype SaveOutcome = Saved | Unacknowledged | NotSaved

  /** Some try wrote the row, whatever was reported. */
  predicate Written(tries: seq<SaveOutcome>) {
    exists i :: 0 <= i < |tries| && tries[i] != NotSaved
  }

  /** Up to three tries with the two waits between them. */
  method SaveIncidentWithRetry(repo: IncidentRepository, incident: Incident, tries: seq<SaveOutcome>)
      returns (ok: bool, waits: seq<nat>)
    requires |tries| == |RETRY_DELAYS_MS| + 1
    modifies repo
    ensures ok <==> Saved in tries
    ensures repo.rows == if Written(tries) then old(repo.rows)[incident.id := incident] else old(repo.rows)
    ensures waits <= [100, 500]
    ensures ok ==> tries[|waits|] == Saved && forall i :: 0 <= i < |waits| ==> tries[i] != Saved
    ensures !ok ==> waits == [100, 500]
  {
    waits := [];
    for attempt := 0 to |RETRY_DELAYS_MS| + 1
      invariant repo.rows == if Written(tries[..attempt]) then old(repo.rows)[incident.id := incident] else old(repo.rows)
      invariant forall i :: 0 <= i < attempt ==> tries[i] != Saved
      invariant waits == RETRY_DELAYS_MS[..if attempt <= 2 then attempt else 2]
    {
      WrittenOnce(tries, attempt);
      if tries[attempt] != NotSaved {
        repo.Save(incident);
      }
      if tries[attempt] == Saved {
        return true, waits;
      }
      if attempt < |RETRY_DELAYS_MS| {
        waits := waits + [RETRY_DELAYS_MS[attempt]];
      }
    }
    assert tries[..|tries|] == tries;
    return false, waits;
  }

  lemma WrittenOnce(tries: seq<SaveOutcome>, i: nat)
    requires i < |tries|
    ensures Written(tries[..i + 1]) <==> Written(tries[..i]) || tries[i] != NotSaved
    ensures tries[i] != NotSaved ==> Written(tries)
  {
    var front := tries[..i + 1];
    if Written(tries[..i]) {
      var j :| 0 <= j < i && tries[..i][j] != NotSaved;
      assert front[j] != NotSaved;
    }
    if Written(front) && tries[i] == NotSaved {
      var j :| 0 <= j < |front| && front[j] != NotSaved;
      assert tries[..i][j] != NotSaved;
    }
    assert front[i] == tries[i];
  }

  // ---- The engine and its mirror as one system ------------------------------------------------

  function Touched(events: seq<Event>): seq<Incident> {
    if events == [] then []
    else (if events[0].IncidentTouched? then [events[0].incident] else []) + Touched(events[1..])
  }

  function SaveAll(rows: Rows, touched: seq<Incident>, saved: bool): Rows
    decreases touched
  {
    if touched == [] || !saved then rows else SaveAll(rows[touched[0].id := touched[0]], touched[1..], saved)
  }

  function LogOf(touched: seq<Incident>, saved: bool): seq<(Id, bool)> {
    seq(|touched|, i requires 0 <= i < |touched| => (touched[i].id, saved))
  }

  /** `log` records each write-through of the current process: which incident, and whether its
      row was written; the engine never learns which. `used` holds every incident id handed out
      so far. */
  datatype System = System(open: OpenMap, rows: Rows, log: seq<(Id, bool)>, used: set<Id>)

  const EMPTY := System(map[], map[], [], {})

  datatype Step =
    | Handle(command: Command, saved: bool)
    | Sweep(cutoff: Timestamp)
    | Restart(listing: seq<Incident>)

  /** One accepted or refused draft and its write-through. */
  function HandleStep(kinds: Registry, s: System, c: Command, saved: bool): System {
    var (open, outcome) := Record(kinds, s.open, c);
    var touched := if outcome.Ok? then Touched(outcome.value) else [];
    System(open, SaveAll(s.rows, touched, saved), s.log + LogOf(touched, saved), s.used + {c.incidentId})
  }

  /** A restart keeps only the rows; it is a step only when `Rebuild` does not panic. */
  ghost predicate Next(kinds: Registry, s: System, step: Step, s': System) {
    match step
    case Handle(c, saved) => c.incidentId !in s.used && s' == HandleStep(kinds, s, c, saved)
    case Sweep(cutoff) => s' == s.(rows := Swept(s.rows, cutoff))
    case Restart(listing) =>
      IsOpenListing(s.rows, listing) && DistinctFingerprints(listing) && IsRebuilt(listing, s'.open)
      && s' == s.(open := s'.open, log := [])
  }

  ghost predicate IsRun(kinds: Registry, states: seq<System>, steps: seq<Step>) {
    |states| == |steps| + 1 && states[0] == EMPTY
    && forall i :: 0 <= i < |steps| ==> Next(kinds, states[i], steps[i], states[i + 1])
  }

  /** The incidents whose last save in this process was lost. */
  function Lost(log: seq<(Id, bool)>): set<Id> {
    if log == [] then {}
    else
      var (id, saved) := log[|log| - 1];
      if saved then Lost(log[..|log| - 1]) - {id} else Lost(log[..|log| - 1]) + {id}
  }

  ghost predicate OpenId(open: OpenMap, id: Id) {
    exists fp :: fp in open && open[fp].id == id
  }

  // ---- The invariant -----------------------------------------------------------------------------

  /** Rows and open incidents in every reachable state. */
  ghost predicate Inv(s: System) {
    GoodMap(s.open, s.used) && GoodRows(s.rows, s.used, Lost(s.log)) && Linked(s.open, s.rows, Lost(s.log))
  }

  ghost predicate GoodMap(open: OpenMap, used: set<Id>) {
    (forall fp :: fp in open ==> GoodOpen(open, fp) && open[fp].id in used)
    && forall f, g :: f in open && g in open && open[f].id == open[g].id ==> f == g
  }

  ghost predicate GoodRows(rows: Rows, used: set<Id>, lost: set<Id>) {
    rows.Keys <= used && lost <= used
    && (forall id :: id in rows ==> rows[id].id == id && GoodRow(rows[id]))
    && forall id :: id in lost && id in rows ==> rows[id].status == Open
  }

  /** A row of a lost incident is an older version of it; every other open row is the open
      incident itself. */
  ghost predicate Linked(open: OpenMap, rows: Rows, lost: set<Id>) {
    (forall fp :: fp in open ==> HasVersion(open[fp], rows, lost))
    && forall id :: id in rows && rows[id].status == Open && id !in lost ==> IsCurrent(open, rows[id])
  }

  predicate HasVersion(current: Incident, rows: Rows, lost: set<Id>) {
    if current.id in rows then Version(rows[current.id], current, current.id in lost) else current.id in lost
  }

  predicate IsCurrent(open: OpenMap, row: Incident) {
    row.fingerprint in open && open[row.fingerprint].id == row.id
  }

  predicate GoodOpen(open: OpenMap, fp: Fingerprint)
    requires fp in open
  {
    open[fp].fingerprint == fp && open[fp].status == Open && open[fp].resolvedAt == None
  }

  predicate GoodRow(row: Incident) {
    (row.status == Resolved && row.resolvedAt.Some?) || (row.status == Open && row.resolvedAt.None?)
  }

  predicate Version(row: Incident, current: Incident, lost: bool) {
    row.fingerprint == current.fingerprint && row.status == Open
    && if lost then |row.signalObservationIds| < |current.signalObservationIds| else row == current
  }

  lemma TouchedInSteps(events: seq<Event>)
    requires 1 <= |events| <= 3
    requires !events[0].IncidentTouched? && (|events| == 3 ==> !events[2].IncidentTouched?)
    ensures Touched(events) == if |events| >= 2 && events[1].IncidentTouched? then [events[1].incident] else []
  {
    var a := events[1..];
    if |events| == 1 {
      assert a == [];
    } else {
      var b := a[1..];
      assert Touched(events) == Touched(a);
      assert Touched(b) == [] by {
        if |events| == 3 {
          assert b == [events[2]] && b[1..] == [];
        } else {
          assert b == [];
        }
      }
    }
  }

  /** What one command touches: nothing, or the one incident now or formerly in its slot. */
  lemma StepTouches(floor: Confidence, slot: Option<Incident>, c: Command)
    ensures var (slot', events) := SlotStep(floor, slot, c);
            var touched := Touched(events);
            (touched == [] ==> slot' == slot)
            && (touched != [] ==>
                  |touched| == 1
                  && (slot'.Some? ==> touched[0] == slot'.value
                                      && (slot.None? ==> slot'.value == NewIncident(c))
                                      && (slot.Some? ==> slot'.value == Absorb(slot.value, c)))
                  && (slot'.None? ==> slot.Some? && touched[0] == Close(slot.value, c)))
  {
    TouchedInSteps(SlotStep(floor, slot, c).1);
  }

  lemma LostAppend(log: seq<(Id, bool)>, id: Id, saved: bool)
    ensures Lost(log + [(id, saved)]) == if saved then Lost(log) - {id} else Lost(log) + {id}
  {
    assert (log + [(id, saved)])[..|log|] == log;
  }

  lemma HandleKeepsInv(kinds: Registry, s: System, c: Command, saved: bool)
    requires Inv(s) && c.incidentId !in s.used
    ensures Inv(HandleStep(kinds, s, c, saved))
  {
    var s' := HandleStep(kinds, s, c, saved);
    var outcome := Record(kinds, s.open, c).1;
    if outcome.Err? || Touched(outcome.value) == [] {
      NothingTouched(kinds, s, c, saved);
    } else {
      var t := HandleWritesThrough(kinds, s, c, saved);
      WriteThrough(s, s', FingerprintOf(c.draft), t, saved, c.incidentId);
    }
  }

  lemma NothingTouched(kinds: Registry, s: System, c: Command, saved: bool)
    requires var outcome := Record(kinds, s.open, c).1; outcome.Err? || Touched(outcome.value) == []
    ensures HandleStep(kinds, s, c, saved) == s.(used := s.used + {c.incidentId})
  {
    var fp := FingerprintOf(c.draft);
    assert LogOf([], saved) == [];
    if ValidateDraft(kinds, c.draft).None? {
      StepTouches(kinds[c.draft.kind].minOpenConfidence, Lookup(s.open, fp), c);
      assert Put(s.open, fp, Lookup(s.open, fp)) == s.open;
    }
  }

  lemma HandleWritesThrough(kinds: Registry, s: System, c: Command, saved: bool) returns (t: Incident)
    requires GoodMap(s.open, s.used)
    requires var outcome := Record(kinds, s.open, c).1; outcome.Ok? && Touched(outcome.value) != []
    ensures WritesThrough(s, HandleStep(kinds, s, c, saved), FingerprintOf(c.draft), t, saved, c.incidentId)
    ensures Touched(Record(kinds, s.open, c).1.value) == [t]
  {
    var fp, floor := FingerprintOf(c.draft), kinds[c.draft.kind].minOpenConfidence;
    var slot := Lookup(s.open, fp);
    StepTouches(floor, slot, c);
    assert slot.Some? ==> GoodOpen(s.open, fp);
    var touched := Touched(SlotStep(floor, slot, c).1);
    t := touched[0];
    assert touched == [t] && touched[1..] == [];
    assert LogOf(touched, saved) == [(t.id, saved)];
    LostAppend(s.log, t.id, saved);
    assert SaveAll(s.rows[t.id := t], touched[1..], saved) == s.rows[t.id := t];
  }

  /** `s'` is `s` after `t`, the incident now or formerly open under `fp`, was written
      through, successfully or not. */
  predicate WritesThrough(s: System, s': System, fp: Fingerprint, t: Incident, saved: bool, newId: Id) {
    t.fingerprint == fp && GoodRow(t)
    && s'.open == (if t.status == Open then s.open[fp := t] else s.open - {fp})
    && s'.rows == (if saved then s.rows[t.id := t] else s.rows)
    && Lost(s'.log) == (if saved then Lost(s.log) - {t.id} else Lost(s.log) + {t.id})
    && s'.used == s.used + {newId}
    && if fp in s.open then t.id == s.open[fp].id
                            && |t.signalObservationIds| > |s.open[fp].signalObservationIds|
       else t.id == newId && t.status == Open
  }

  lemma WriteThroughMap(s: System, s': System, fp: Fingerprint, t: Incident, saved: bool, newId: Id)
    requires Inv(s) && newId !in s.used && WritesThrough(s, s', fp, t, saved, newId)
    ensures GoodMap(s'.open, s'.used)
    ensures forall f :: f in s'.open && f != fp ==> f in s.open && s'.open[f] == s.open[f] && s.open[f].id != t.id
  {
    forall f | f in s'.open && f != fp ensures s.open[f].id != t.id {
      assert GoodOpen(s.open, f);
    }
    forall f | f in s'.open ensures GoodOpen(s'.open, f) && s'.open[f].id in s'.used {
      if f != fp { assert GoodOpen(s.open, f); }
    }
  }

  lemma WriteThroughRows(s: System, s': System, fp: Fingerprint, t: Incident, saved: bool, newId: Id)
    requires Inv(s) && newId !in s.used && WritesThrough(s, s', fp, t, saved, newId)
    ensures GoodRows(s'.rows, s'.used, Lost(s'.log))
  {
    if fp in s.open {
      assert HasVersion(s.open[fp], s.rows, Lost(s.log));
    }
  }

  lemma WriteThroughLink(s: System, s': System, fp: Fingerprint, t: Incident, saved: bool, newId: Id)
    requires Inv(s) && newId !in s.used && WritesThrough(s, s', fp, t, saved, newId)
    ensures Linked(s'.open, s'.rows, Lost(s'.log))
  {
    WriteThroughMap(s, s', fp, t, saved, newId);
    forall f | f in s'.open ensures HasVersion(s'.open[f], s'.rows, Lost(s'.log)) {
      if f in s.open { assert HasVersion(s.open[f], s.rows, Lost(s.log)); }
    }
    forall id | id in s'.rows && s'.rows[id].status == Open && id !in Lost(s'.log)
      ensures IsCurrent(s'.open, s'.rows[id])
    {
      if id != t.id {
        assert IsCurrent(s.open, s.rows[id]);
      }
    }
  }

  lemma WriteThrough(s: System, s': System, fp: Fingerprint, t: Incident, saved: bool, newId: Id)
    requires Inv(s) && newId !in s.used && WritesThrough(s, s', fp, t, saved, newId)
    ensures Inv(s')
  {
    WriteThroughMap(s, s', fp, t, saved, newId);
    WriteThroughRows(s, s', fp, t, saved, newId);
    WriteThroughLink(s, s', fp, t, saved, newId);
  }

  lemma SweepKeepsInv(s: System, cutoff: Timestamp)
    requires Inv(s)
    ensures Inv(s.(rows := Swept(s.rows, cutoff)))
  {
  }

  lemma RestartKeepsInv(s: System, listing: seq<Incident>, s': System)
    requires Inv(s) && IsOpenListing(s.rows, listing) && DistinctFingerprints(listing) && IsRebuilt(listing, s'.open)
    requires s' == s.(open := s'.open, log := [])
    ensures Inv(s')
  {
    forall fp | fp in s'.open
      ensures s'.open[fp].id in s.rows && s.rows[s'.open[fp].id] == s'.open[fp]
              && s'.open[fp].status != Resolved && s'.open[fp].fingerprint == fp
    {
      var i :| 0 <= i < |listing| && listing[i].fingerprint == fp;
    }
    forall id | id in s.rows && s.rows[id].status == Open
      ensures s.rows[id].fingerprint in s'.open && s'.open[s.rows[id].fingerprint] == s.rows[id]
    {
      assert s.rows[id] in listing;
    }
  }

  lemma StepKeepsInv(kinds: Registry, s: System, step: Step, s': System)
    requires Inv(s) && Next(kinds, s, step, s')
    ensures Inv(s')
  {
    match step
    case Handle(c, saved) => HandleKeepsInv(kinds, s, c, saved);
    case Sweep(cutoff) => SweepKeepsInv(s, cutoff);
    case Restart(listing) => RestartKeepsInv(s, listing, s');
  }

  lemma {:induction false} RunsKeepInv(kinds: Registry, states: seq<System>, steps: seq<Step>, i: nat)
    requires IsRun(kinds, states, steps) && i < |states|
    ensures Inv(states[i])
  {
    if i > 0 {
      RunsKeepInv(kinds, states, steps, i - 1);
      assert Next(kinds, states[i - 1], steps[i - 1], states[i - 1 + 1]);
      StepKeepsInv(kinds, states[i - 1], steps[i - 1], states[i]);
    }
  }

  // ---- Resolved rows -------------------------------------------------------------------------------

  /** `row` is the incident `before` after the Cleared draft of `c`. */
  predicate ClosedBy(row: Incident, before: Incident, c: Command) {
    c.draft.status == Cleared
    && row.status == Resolved && row.resolvedAt == Some(c.now) && row.updatedAt == c.now
    && row.signalObservationIds == before.signalObservationIds + [c.observationId]
    && row.(status := before.status, resolvedAt := before.resolvedAt, updatedAt := before.updatedAt,
            signalObservationIds := before.signalObservationIds) == before
  }

  /** The command `c` closed the incident `id` that was open in `s`. */
  predicate Closes(kinds: Registry, s: System, c: Command, id: Id, row: Incident) {
    Accepted(kinds, c) && FingerprintOf(c.draft) in s.open
    && s.open[FingerprintOf(c.draft)].id == id && ClosedBy(row, s.open[FingerprintOf(c.draft)], c)
  }

  lemma NewRow(kinds: Registry, s: System, c: Command, saved: bool, id: Id)
    requires GoodMap(s.open, s.used)
    requires var s' := HandleStep(kinds, s, c, saved); id in s'.rows && s'.rows[id].status == Resolved
    ensures var s' := HandleStep(kinds, s, c, saved);
            (id in s.rows && s'.rows[id] == s.rows[id]) || (saved && Closes(kinds, s, c, id, s'.rows[id]))
  {
    var outcome := Record(kinds, s.open, c).1;
    if outcome.Err? || Touched(outcome.value) == [] {
      NothingTouched(kinds, s, c, saved);
    } else {
      var t := HandleWritesThrough(kinds, s, c, saved);
      if t.status != Open {
        TouchedClosed(kinds, s, c, t);
      }
    }
  }

  lemma TouchedClosed(kinds: Registry, s: System, c: Command, t: Incident)
    requires GoodMap(s.open, s.used) && t.status != Open
    requires var outcome := Record(kinds, s.open, c).1; outcome.Ok? && Touched(outcome.value) == [t]
    ensures Closes(kinds, s, c, t.id, t)
  {
    var slot := Lookup(s.open, FingerprintOf(c.draft));
    assert slot.Some? ==> GoodOpen(s.open, FingerprintOf(c.draft));
    StepTouches(kinds[c.draft.kind].minOpenConfidence, slot, c);
  }

  /** In every run each stored Resolved row was written when an accepted Cleared draft closed its
      incident: it carries that draft's time, and the account the engine then had. So a sweep
      removes it exactly when its cutoff has passed that time. */
  lemma {:induction false} ResolvedRowsTellTheirEnd(kinds: Registry, states: seq<System>, steps: seq<Step>, i: nat, id: Id)
      returns (j: nat)
    requires IsRun(kinds, states, steps) && i < |states|
    requires id in states[i].rows && states[i].rows[id].status == Resolved
    ensures j < i && steps[j].Handle? && steps[j].saved
    ensures Closes(kinds, states[j], steps[j].command, id, states[i].rows[id])
    ensures forall cutoff :: id !in Swept(states[i].rows, cutoff) <==> steps[j].command.now < cutoff
  {
    var k := i - 1;
    assert i > 0 && Next(kinds, states[k], steps[k], states[k + 1]);
    RunsKeepInv(kinds, states, steps, k);
    var written := false;
    if steps[k].Handle? {
      NewRow(kinds, states[k], steps[k].command, steps[k].saved, id);
      written := !(id in states[k].rows && states[i].rows[id] == states[k].rows[id]);
    }
    if written {
      j := k;
    } else {
      j := ResolvedRowsTellTheirEnd(kinds, states, steps, k, id);
    }
  }

  /** A row that is still open is never swept. */
  lemma OpenRowsStay(kinds: Registry, states: seq<System>, steps: seq<Step>, i: nat, id: Id, cutoff: Timestamp)
    requires IsRun(kinds, states, steps) && i < |states| && id in states[i].rows && states[i].rows[id].status != Resolved
    ensures id in Swept(states[i].rows, cutoff) && Swept(states[i].rows, cutoff)[id] == states[i].rows[id]
  {
    RunsKeepInv(kinds, states, steps, i);
    assert GoodRow(states[i].rows[id]);
  }

  // ---- Recovery -------------------------------------------------------------------------------------

  /** No lost save matters any more: each lost incident is closed and left no row behind. */
  ghost predicate NothingOutstanding(s: System) {
    forall id :: id in Lost(s.log) ==> id !in s.rows && !OpenId(s.open, id)
  }

  /** In a state with the invariant, reading the rows back gives exactly the engine's map,
      without a panic, if and only if no lost save is outstanding. */
  lemma RecoveryExact(s: System, listing: seq<Incident>)
    requires Inv(s) && IsOpenListing(s.rows, listing)
    ensures DistinctFingerprints(listing) && IsRebuilt(listing, s.open) <==> NothingOutstanding(s)
  {
    if NothingOutstanding(s) {
      ListingIsOpenMap(s, listing);
    } else {
      var id :| id in Lost(s.log) && (id in s.rows || OpenId(s.open, id));
      OutstandingBreaks(s, listing, id);
    }
  }

  /** At any point of any run - drafts, lost saves, sweeps, earlier restarts - a crash followed
      by a restart brings back exactly the engine's map, without a panic, if and only if no
      lost save is outstanding; in particular when the last save of each incident succeeded. */
  lemma CrashRecovery(kinds: Registry, states: seq<System>, steps: seq<Step>, i: nat, listing: seq<Incident>)
    requires IsRun(kinds, states, steps) && i < |states|
    requires IsOpenListing(states[i].rows, listing)
    ensures DistinctFingerprints(listing) && IsRebuilt(listing, states[i].open) <==> NothingOutstanding(states[i])
    ensures Lost(states[i].log) == {} ==> DistinctFingerprints(listing) && IsRebuilt(listing, states[i].open)
  {
    RunsKeepInv(kinds, states, steps, i);
    RecoveryExact(states[i], listing);
  }

  lemma OutstandingBreaks(s: System, listing: seq<Incident>, id: Id)
    requires Inv(s) && IsOpenListing(s.rows, listing)
    requires id in Lost(s.log) && (id in s.rows || OpenId(s.open, id))
    ensures !IsRebuilt(listing, s.open)
  {
    if OpenId(s.open, id) {
      var fp :| fp in s.open && s.open[fp].id == id;
      assert HasVersion(s.open[fp], s.rows, Lost(s.log));
      forall j | 0 <= j < |listing| ensures listing[j] != s.open[fp] {
      }
    } else {
      assert s.rows[id] in listing;
      var j :| 0 <= j < |listing| && listing[j] == s.rows[id];
      forall fp | fp in s.open ensures s.open[fp] != listing[j] {
        assert OpenId(s.open, s.open[fp].id);
      }
    }
  }

  lemma ListingIsOpenMap(s: System, listing: seq<Incident>)
    requires Inv(s) && NothingOutstanding(s) && IsOpenListing(s.rows, listing)
    ensures DistinctFingerprints(listing) && IsRebuilt(listing, s.open)
  {
    forall j | 0 <= j < |listing|
      ensures listing[j].fingerprint in s.open && s.open[listing[j].fingerprint] == listing[j]
    {
      var id := listing[j].id;
      assert GoodRow(s.rows[id]) && IsCurrent(s.open, s.rows[id]);
      assert HasVersion(s.open[listing[j].fingerprint], s.rows, Lost(s.log));
    }
    forall fp | fp in s.open ensures exists j :: 0 <= j < |listing| && listing[j].fingerprint == fp {
      var id := s.open[fp].id;
      assert OpenId(s.open, id);
      assert HasVersion(s.open[fp], s.rows, Lost(s.log));
      assert s.rows[id] in listing;
    }
  }

  /** The save of incident `id`'s resolution was lost and an open row of it is still stored. */
  ghost predicate LostResolution(s: System, id: Id) {
    id in Lost(s.log) && id in s.rows && !OpenId(s.open, id)
  }

  /** The fingerprint of the lost resolution `id` was reopened with a save that went through: by
      the incident the engine holds for it now, or by one whose resolution was lost in turn. */
  ghost predicate Reopened(s: System, id: Id) {
    LostResolution(s, id)
    && var fp := s.rows[id].fingerprint;
       (fp in s.open && s.open[fp].id in s.rows)
       || exists other :: other != id && LostResolution(s, other) && s.rows[other].fingerprint == fp
  }

  /** Start-up panics if and only if the fingerprint of a lost resolution was reopened with a save
      that went through. */
  lemma StartupPanicsExactly(kinds: Registry, states: seq<System>, steps: seq<Step>, i: nat, listing: seq<Incident>)
    requires IsRun(kinds, states, steps) && i < |states|
    requires IsOpenListing(states[i].rows, listing)
    ensures !DistinctFingerprints(listing) <==> exists id :: Reopened(states[i], id)
  {
    RunsKeepInv(kinds, states, steps, i);
    var s := states[i];
    if !DistinctFingerprints(listing) {
      var j, k :| 0 <= j < k < |listing| && listing[j].fingerprint == listing[k].fingerprint;
      SharedFingerprint(s, listing[j].id, listing[k].id);
    }
    if id :| Reopened(s, id) {
      var other := OtherOpenRow(s, id);
      SharedListing(s, listing, id, other);
    }
  }

  lemma OtherOpenRow(s: System, id: Id) returns (other: Id)
    requires Inv(s) && Reopened(s, id)
    ensures other != id && other in s.rows && s.rows[id].status == s.rows[other].status == Open
    ensures s.rows[other].fingerprint == s.rows[id].fingerprint
  {
    var fp := s.rows[id].fingerprint;
    if fp in s.open && s.open[fp].id in s.rows {
      other := s.open[fp].id;
      assert HasVersion(s.open[fp], s.rows, Lost(s.log)) && OpenId(s.open, other);
    } else {
      other :| other != id && LostResolution(s, other) && s.rows[other].fingerprint == fp;
    }
  }

  lemma SharedListing(s: System, listing: seq<Incident>, id: Id, other: Id)
    requires Inv(s) && IsOpenListing(s.rows, listing) && id != other && id in s.rows && other in s.rows
    requires s.rows[id].status == s.rows[other].status == Open && s.rows[id].fingerprint == s.rows[other].fingerprint
    ensures !DistinctFingerprints(listing)
  {
    assert s.rows[id] in listing && s.rows[other] in listing;
    var j :| 0 <= j < |listing| && listing[j] == s.rows[id];
    var k :| 0 <= k < |listing| && listing[k] == s.rows[other];
    assert listing[if j < k then j else k].fingerprint == listing[if j < k then k else j].fingerprint;
  }

  lemma SharedFingerprint(s: System, a: Id, b: Id)
    requires Inv(s) && a in s.rows && b in s.rows && a != b
    requires s.rows[a].status != Resolved && s.rows[b].status != Resolved
    requires s.rows[a].fingerprint == s.rows[b].fingerprint
    ensures Reopened(s, a) || Reopened(s, b)
  {
    assert GoodRow(s.rows[a]) && GoodRow(s.rows[b]);
    OpenRowIsCurrentOrLost(s, a);
    OpenRowIsCurrentOrLost(s, b);
  }

  lemma OpenRowIsCurrentOrLost(s: System, id: Id)
    requires Inv(s) && id in s.rows && s.rows[id].status == Open
    ensures LostResolution(s, id) || IsCurrent(s.open, s.rows[id])
  {
    if id in Lost(s.log) {
      if OpenId(s.open, id) {
        var fp :| fp in s.open && s.open[fp].id == id;
        assert HasVersion(s.open[fp], s.rows, Lost(s.log));
      }
    }
  }

  /** Such states are reached. If the save of a resolution is lost and the fingerprint then
      opens again, two open rows share it, and the next start-up panics; the lost row is not
      written again by later touches, because the incident has left the engine's map. */
  lemma LostResolutionPanics(kinds: Registry, opening: Command, closing: Command, reopening: Command, listing: seq<Incident>)
    requires Qualifies(kinds, opening) && Qualifies(kinds, reopening)
    requires Accepted(kinds, closing) && closing.draft.status == Cleared
    requires FingerprintOf(opening.draft) == FingerprintOf(closing.draft) == FingerprintOf(reopening.draft)
    requires opening.incidentId != closing.incidentId && opening.incidentId != reopening.incidentId
             && closing.incidentId != reopening.incidentId
    requires var s1 := HandleStep(kinds, EMPTY, opening, true);
             var s2 := HandleStep(kinds, s1, closing, false);
             IsOpenListing(HandleStep(kinds, s2, reopening, true).rows, listing)
    ensures !DistinctFingerprints(listing)
  {
    var fp := FingerprintOf(opening.draft);
    var first, second := NewIncident(opening), NewIncident(reopening);
    var s1 := HandleStep(kinds, EMPTY, opening, true);
    OpeningSaved(kinds, EMPTY, opening);
    var s2 := HandleStep(kinds, s1, closing, false);
    StepTouches(kinds[fp.kind].minOpenConfidence, Some(first), closing);
    assert fp !in s2.open && s2.rows == s1.rows;
    var s3 := HandleStep(kinds, s2, reopening, true);
    OpeningSaved(kinds, s2, reopening);
    assert s3.rows[first.id] in listing && s3.rows[second.id] in listing;
    var i :| 0 <= i < |listing| && listing[i] == first;
    var j :| 0 <= j < |listing| && listing[j] == second;
    assert listing[if i < j then i else j].fingerprint == fp == listing[if i < j then j else i].fingerprint;
  }

  lemma OpeningSaved(kinds: Registry, s: System, c: Command)
    requires Qualifies(kinds, c) && FingerprintOf(c.draft) !in s.open
    ensures var s', t := HandleStep(kinds, s, c, true), NewIncident(c);
            s'.rows == s.rows[t.id := t] && s'.open == s.open[FingerprintOf(c.draft) := t]
  {
    var floor, t := kinds[c.draft.kind].minOpenConfidence, NewIncident(c);
    StepTouches(floor, None, c);
    var touched := Touched(SlotStep(floor, None, c).1);
    assert touched == [t];
    assert SaveAll(s.rows[t.id := t], touched[1..], true) == s.rows[t.id := t];
  }
}

/** Notification attempts: the rows, the consumer's fan-out of a lifecycle event, the worker's
    completion of a dispatch. */
module Notifications {
  import opened Types

  datatype DeliveryStatus = Pending | Succeeded | FailedTransient | FailedPermanent | SuppressedDelivery

  datatype DeliveryOutcome = Delivered(externalRef: Option<string>) | Transient | Permanent

  datatype LifecycleKind = OpenedKind | EscalatedKind | ResolvedKind

  datatype Attempt = Attempt(
    id: Id,
    ruleId: string,
    incidentId: Id,
    lifecycleKind: LifecycleKind,
    status: DeliveryStatus,
    attemptNumber: nat,
    nextRetryAt: Option<Timestamp>,
    outcome: Option<DeliveryOutcome>,
    externalRef: Option<string>,
    attemptedAt: Timestamp,
    completedAt: Option<Timestamp>)

  type Attempts = map<Id, Attempt>

  datatype Receipt = Receipt(outcome: DeliveryOutcome, completedAt: Timestamp)

  datatype Rule = Rule(id: string, enabled: bool, minSeverity: IncidentSeverity, eventKinds: seq<string>, target: string)

  type Targets = seq<(Id, string)>

  // ---- Specification ----------------------------------------------------------------------

  function KindOf(e: LifecycleEvent): (k: LifecycleKind)
    ensures (k.OpenedKind? <==> e.Opened?) && (k.EscalatedKind? <==> e.Escalated?) && (k.ResolvedKind? <==> e.ResolvedEvent?)
  {
    match e
    case Opened(_) => OpenedKind
    case Escalated(_, _, _) => EscalatedKind
    case ResolvedEvent(_) => ResolvedKind
  }

  /** The rule asks for the event: it is enabled, names the incident's kind or no kind at all, and
      the incident is at least as severe as its floor. */
  predicate Wants(rule: Rule, e: LifecycleEvent) {
    rule.enabled
    && (|rule.eventKinds| == 0 || exists i :: 0 <= i < |rule.eventKinds| && rule.eventKinds[i] == e.incident.kind)
    && NotBelow(e.incident.severity, rule.minSeverity)
  }

  predicate Matches(rule: Rule, e: LifecycleEvent) {
    rule.enabled
    && (rule.eventKinds == [] || e.incident.kind in rule.eventKinds)
    && SeverityRank(e.incident.severity) >= SeverityRank(rule.minSeverity)
  }

  /** `row` is a first attempt for the event and rule that waits to be sent. */
  predicate Awaits(row: Attempt, rule: Rule, e: LifecycleEvent, id: Id, now: Timestamp) {
    row.id == id && row.ruleId == rule.id && row.incidentId == e.incident.id
    && (row.lifecycleKind.OpenedKind? <==> e.Opened?) && (row.lifecycleKind.EscalatedKind? <==> e.Escalated?)
    && row.status == Pending && row.attemptNumber == 1 && row.attemptedAt == now
    && row.nextRetryAt.None? && row.outcome.None? && row.externalRef.None? && row.completedAt.None?
  }

  lemma MatchesIsWants(rule: Rule, e: LifecycleEvent)
    ensures Matches(rule, e) <==> Wants(rule, e)
  {
    RankIsOrder(e.incident.severity, rule.minSeverity);
  }

  function PendingRow(rule: Rule, e: LifecycleEvent, id: Id, now: Timestamp): (row: Attempt)
    ensures Awaits(row, rule, e, id, now)
  {
    Attempt(id, rule.id, e.incident.id, KindOf(e), Pending, 1, None, None, None, now, None)
  }

  function StatusForOutcome(outcome: DeliveryOutcome, willRetry: bool): DeliveryStatus {
    match outcome
    case Delivered(_) => Succeeded
    case Transient => if willRetry then FailedTransient else FailedPermanent
    case Permanent => FailedPermanent
  }

  /** The old status is not looked at. */
  function CompletedRow(row: Attempt, receipt: Receipt, nextRetryAt: Option<Timestamp>): Attempt {
    row.(status := StatusForOutcome(receipt.outcome, nextRetryAt.Some?),
         outcome := Some(receipt.outcome),
         externalRef := match receipt.outcome { case Delivered(r) => r case _ => None },
         nextRetryAt := nextRetryAt,
         completedAt := Some(receipt.completedAt))
  }

  function CompletedRows(rows: Attempts, id: Id, receipt: Receipt, nextRetryAt: Option<Timestamp>): Attempts {
    if id in rows then rows[id := CompletedRow(rows[id], receipt, nextRetryAt)] else rows
  }

  /** `row` is `before` after its send came back with `receipt`; nothing will retry it. */
  predicate Ended(before: Attempt, receipt: Receipt, row: Attempt) {
    row.status == (if receipt.outcome.Delivered? then Succeeded else FailedPermanent)
    && row.outcome == Some(receipt.outcome) && row.completedAt == Some(receipt.completedAt)
    && row.externalRef == (if receipt.outcome.Delivered? then receipt.outcome.externalRef else None)
    && row.nextRetryAt.None? && SameIdentity(before, row)
  }

  predicate SameIdentity(a: Attempt, b: Attempt) {
    a.(status := b.status, outcome := b.outcome, externalRef := b.externalRef, nextRetryAt := b.nextRetryAt,
       completedAt := b.completedAt) == b
  }

  lemma CompletedIsEnded(row: Attempt, receipt: Receipt)
    ensures Ended(row, receipt, CompletedRow(row, receipt, None))
  {
  }

  /** With a retry time an attempt is due from then on, if and only if its send failed for a
      while; the worker gives none, so nothing is ever due. */
  lemma RetryIsDue(rows: Attempts, id: Id, receipt: Receipt, nextRetryAt: Option<Timestamp>, now: Timestamp)
    requires id in rows
    ensures id in Retryable(CompletedRows(rows, id, receipt, nextRetryAt), now)
            <==> receipt.outcome.Transient? && nextRetryAt.Some? && nextRetryAt.value <= now
  {
  }

  /** The rows due for a retry at `now`. */
  function Retryable(rows: Attempts, now: Timestamp): set<Id> {
    set id | id in rows && rows[id].status == FailedTransient
             && rows[id].nextRetryAt.Some? && rows[id].nextRetryAt.value <= now
  }

  function SweptAttempts(rows: Attempts, cutoff: Timestamp): Attempts {
    map id | id in rows && !(rows[id].attemptedAt < cutoff && rows[id].status != Pending) :: rows[id]
  }

  /** One rule of the fan-out: a pending row and a target, unless the rule does not match or
      the insert fails. */
  function FanOutOne(rows: Attempts, targets: Targets, rule: Rule, e: LifecycleEvent, id: Id, backendOk: bool, now: Timestamp)
    : (Attempts, Targets)
  {
    if Matches(rule, e) && backendOk && id !in rows
    then (rows[id := PendingRow(rule, e, id, now)], targets + [(id, rule.target)])
    else (rows, targets)
  }

  /** The first `n` rules of the fan-out; `ids[r]` is drawn for rule `r`. */
  function FanOut(rows: Attempts, rules: seq<Rule>, e: LifecycleEvent, ids: seq<Id>, backendOk: seq<bool>, now: Timestamp, n: nat)
    : (Attempts, Targets)
    requires n <= |rules| <= |ids| && n <= |backendOk|
  {
    if n == 0 then (rows, [])
    else
      var (rows', targets) := FanOut(rows, rules, e, ids, backendOk, now, n - 1);
      FanOutOne(rows', targets, rules[n - 1], e, ids[n - 1], backendOk[n - 1], now)
  }

  function IdsOf(targets: Targets): (ids: seq<Id>)
    ensures |ids| == |targets| && forall i :: 0 <= i < |ids| ==> ids[i] == targets[i].0
  {
    seq(|targets|, i requires 0 <= i < |targets| => targets[i].0)
  }

  // ---- The repository ------------------------------------------------------------------------

  class AttemptRepository {
    var rows: Attempts

    constructor ()
      ensures rows == map[]
    {
      rows := map[];
    }

    method InsertPending(attempt: Attempt) returns (ok: bool)
      modifies this
      ensures ok <==> attempt.id !in old(rows)
      ensures rows == if ok then old(rows)[attempt.id := attempt] else old(rows)
    {
      if attempt.id in rows {
        return false;
      }
      rows := rows[attempt.id := attempt];
      return true;
    }

    method Complete(id: Id, receipt: Receipt, nextRetryAt: Option<Timestamp>) returns (found: bool)
      modifies this
      ensures found <==> id in old(rows)
      ensures rows == CompletedRows(old(rows), id, receipt, nextRetryAt)
    {
      if id !in rows {
        return false;
      }
      var attempt := rows[id];
      attempt := attempt.(status := StatusForOutcome(receipt.outcome, nextRetryAt.Some?));
      attempt := attempt.(outcome := Some(receipt.outcome));
      attempt := attempt.(externalRef := match receipt.outcome { case Delivered(r) => r case _ => None });
      attempt := attempt.(nextRetryAt := nextRetryAt);
      attempt := attempt.(completedAt := Some(receipt.completedAt));
      rows := rows[id := attempt];
      return true;
    }

    /** The attempt part of a retention sweep: rows still pending are kept whatever their age. */
    method SweepAttempts(maxAge: Option<Duration>, now: Timestamp)
      modifies this
      ensures forall id :: id in rows ==> id in old(rows) && rows[id] == old(rows)[id]
      ensures forall id :: id in old(rows) ==>
                (id !in rows <==> maxAge.Some? && old(rows)[id].status != Pending
                                  && (now - old(rows)[id].attemptedAt > maxAge.value
                                      || now - old(rows)[id].attemptedAt > 0x7FFF_FFFF_FFFF_FFFF))
      ensures rows == if maxAge.None? then old(rows)
                      else SweptAttempts(old(rows), now - if maxAge.value <= I64_MAX then maxAge.value else I64_MAX)
    {
      if maxAge.Some? {
        var cutoff := now - if maxAge.value <= I64_MAX then maxAge.value else I64_MAX;
        rows := map id | id in rows && (rows[id].attemptedAt >= cutoff || rows[id].status == Pending) :: rows[id];
      }
    }
  }

  // ---- Consumer and worker ---------------------------------------------------------------------

  /** What the consumer sends the worker. `eventNo` records which announced event it is about. */
  datatype Dispatch = Dispatch(event: LifecycleEvent, eventNo: nat, attempts: seq<Id>, targets: Targets)

  /** Rows first, then one dispatch naming them; no dispatch when no row was inserted. */
  method DispatchLifecycle(e: LifecycleEvent, eventNo: nat, rules: seq<Rule>, repo: AttemptRepository, ids: seq<Id>,
                           backendOk: seq<bool>, now: Timestamp) returns (d: Option<Dispatch>)
    requires |ids| == |backendOk| == |rules|
    modifies repo
    ensures var (rows, targets) := FanOut(old(repo.rows), rules, e, ids, backendOk, now, |rules|);
            repo.rows == rows
            && d == if targets == [] then None else Some(Dispatch(e, eventNo, IdsOf(targets), targets))
  {
    var attempts: seq<Id> := [];
    var targets: Targets := [];
    for r := 0 to |rules|
      invariant (repo.rows, targets) == FanOut(old(repo.rows), rules, e, ids, backendOk, now, r)
      invariant attempts == IdsOf(targets)
    {
      if Matches(rules[r], e) {
        var ok := false;
        if backendOk[r] {
          ok := repo.InsertPending(PendingRow(rules[r], e, ids[r], now));
        }
        if ok {
          attempts := attempts + [ids[r]];
          targets := targets + [(ids[r], rules[r].target)];
        }
      }
    }
    if attempts == [] {
      return None;
    }
    return Some(Dispatch(e, eventNo, attempts, targets));
  }

  /** `completeOk[i]` says whether the update of target `i` reaches the repository; a row whose
      update fails stays as it is. */
  function WorkedOff(rows: Attempts, targets: Targets, receipts: seq<Receipt>, completeOk: seq<bool>, n: nat): Attempts
    requires n <= |targets| && n <= |receipts| && n <= |completeOk|
  {
    if n == 0 then rows
    else
      var rows' := WorkedOff(rows, targets, receipts, completeOk, n - 1);
      if completeOk[n - 1] then CompletedRows(rows', targets[n - 1].0, receipts[n - 1], None) else rows'
  }

  /** The last of the first `n` updates that is for `id` and reaches the repository. */
  function LastUpdate(targets: Targets, completeOk: seq<bool>, n: nat, id: Id): (last: Option<nat>)
    requires n <= |targets| && n <= |completeOk|
    ensures last.Some? ==> last.value < n && targets[last.value].0 == id && completeOk[last.value]
  {
    if n == 0 then None
    else if targets[n - 1].0 == id && completeOk[n - 1] then Some(n - 1)
    else LastUpdate(targets, completeOk, n - 1, id)
  }

  lemma {:induction false} NoneIsLater(targets: Targets, completeOk: seq<bool>, n: nat, id: Id)
    requires n <= |targets| && n <= |completeOk|
    ensures forall j :: 0 <= j < n && targets[j].0 == id && completeOk[j] ==>
              LastUpdate(targets, completeOk, n, id).Some? && j <= LastUpdate(targets, completeOk, n, id).value
    decreases n
  {
    if n > 0 { NoneIsLater(targets, completeOk, n - 1, id); }
  }

  /** What a dispatch leaves behind: no row comes or goes, an attempt's row holds the outcome of
      the last update for it that went through, whatever it held before, and every row without
      such an update is as it was. */
  ghost predicate Settled(rows: Attempts, targets: Targets, receipts: seq<Receipt>, completeOk: seq<bool>, n: nat, rows': Attempts)
    requires n <= |targets| && n <= |receipts| && n <= |completeOk|
  {
    rows'.Keys == rows.Keys
    && forall id :: id in rows ==> SettledRow(targets, receipts, completeOk, n, id, rows[id], rows'[id])
  }

  predicate SettledRow(targets: Targets, receipts: seq<Receipt>, completeOk: seq<bool>, n: nat, id: Id, row: Attempt, row': Attempt)
    requires n <= |targets| && n <= |receipts| && n <= |completeOk|
  {
    match LastUpdate(targets, completeOk, n, id)
    case None => row' == row
    case Some(i) => Ended(row, receipts[i], row')
  }

  lemma SettledRowOne(targets: Targets, receipts: seq<Receipt>, completeOk: seq<bool>, n: nat, id: Id, row: Attempt, row': Attempt)
    requires n < |targets| && n < |receipts| && n < |completeOk|
    requires SettledRow(targets, receipts, completeOk, n, id, row, row')
    ensures SettledRow(targets, receipts, completeOk, n + 1, id, row,
                       if completeOk[n] && targets[n].0 == id then CompletedRow(row', receipts[n], None) else row')
  {
    CompletedIsEnded(row', receipts[n]);
  }

  lemma SettledOne(rows: Attempts, targets: Targets, receipts: seq<Receipt>, completeOk: seq<bool>, n: nat, rows': Attempts)
    requires n < |targets| && n < |receipts| && n < |completeOk|
    requires Settled(rows, targets, receipts, completeOk, n, rows')
    ensures Settled(rows, targets, receipts, completeOk, n + 1,
                    if completeOk[n] then CompletedRows(rows', targets[n].0, receipts[n], None) else rows')
  {
    forall id | id in rows
      ensures SettledRow(targets, receipts, completeOk, n + 1, id, rows[id],
                         if completeOk[n] && targets[n].0 == id then CompletedRow(rows'[id], receipts[n], None) else rows'[id])
    {
      SettledRowOne(targets, receipts, completeOk, n, id, rows[id], rows'[id]);
    }
  }

  lemma NothingSettled(rows: Attempts, targets: Targets, receipts: seq<Receipt>, completeOk: seq<bool>)
    ensures Settled(rows, targets, receipts, completeOk, 0, rows)
  {
  }

  lemma {:induction false} WorkedOffIsSettled(rows: Attempts, targets: Targets, receipts: seq<Receipt>, completeOk: seq<bool>, n: nat)
    requires n <= |targets| && n <= |receipts| && n <= |completeOk|
    ensures Settled(rows, targets, receipts, completeOk, n, WorkedOff(rows, targets, receipts, completeOk, n))
  {
    if n == 0 {
      NothingSettled(rows, targets, receipts, completeOk);
    } else {
      WorkedOffIsSettled(rows, targets, receipts, completeOk, n - 1);
      SettledOne(rows, targets, receipts, completeOk, n - 1, WorkedOff(rows, targets, receipts, completeOk, n - 1));
    }
  }

  method ProcessDispatch(d: Dispatch, repo: AttemptRepository, receipts: seq<Receipt>, completeOk: seq<bool>)
    requires |receipts| == |completeOk| == |d.targets|
    modifies repo
    ensures Settled(old(repo.rows), d.targets, receipts, completeOk, |d.targets|, repo.rows)
    ensures repo.rows == WorkedOff(old(repo.rows), d.targets, receipts, completeOk, |d.targets|)
  {
    for i := 0 to |d.targets|
      invariant repo.rows == WorkedOff(old(repo.rows), d.targets, receipts, completeOk, i)
    {
      if completeOk[i] {
        var _ := repo.Complete(d.targets[i].0, receipts[i], None);
      }
    }
    WorkedOffIsSettled(old(repo.rows), d.targets, receipts, completeOk, |d.targets|);
  }

  // ---- One event, undisturbed -----------------------------------------------------------------------

  predicate Distinct(ids: seq<Id>) {
    forall i, j :: 0 <= i < j < |ids| ==> ids[i] != ids[j]
  }

  /** `at` lists, in rule order, the first `n` rules that match and whose insert succeeds. */
  ghost predicate Chosen(rules: seq<Rule>, e: LifecycleEvent, backendOk: seq<bool>, n: nat, at: seq<nat>)
    requires n <= |rules| == |backendOk|
  {
    (forall i :: 0 <= i < |at| ==> at[i] < n && Matches(rules[at[i]], e) && backendOk[at[i]])
    && (forall i, j :: 0 <= i < j < |at| ==> at[i] < at[j])
    && forall r :: 0 <= r < n && Matches(rules[r], e) && backendOk[r] ==> r in at
  }

  /** The targets are those of the chosen rules, and `rows'` is `rows` with their pending rows. */
  ghost predicate Enqueued(rows: Attempts, rules: seq<Rule>, e: LifecycleEvent, ids: seq<Id>, now: Timestamp, at: seq<nat>,
                           rows': Attempts, targets: Targets)
    requires |rules| == |ids| && forall i :: 0 <= i < |at| ==> at[i] < |rules|
  {
    |targets| == |at|
    && (forall i :: 0 <= i < |at| ==> targets[i] == (ids[at[i]], rules[at[i]].target))
    && (forall id :: id in rows' ==> id in rows || exists i :: 0 <= i < |at| && ids[at[i]] == id)
    && (forall id :: id in rows ==> id in rows' && rows'[id] == rows[id])
    && forall i :: 0 <= i < |at| ==> ids[at[i]] in rows' && rows'[ids[at[i]]] == PendingRow(rules[at[i]], e, ids[at[i]], now)
  }

  /** With fresh ids the fan-out adds exactly one pending row for every matching rule whose
      insert went through, and lists their targets in rule order. */
  lemma {:induction false} FanOutIsExact(rows: Attempts, rules: seq<Rule>, e: LifecycleEvent, ids: seq<Id>,
                                         backendOk: seq<bool>, now: Timestamp, n: nat) returns (at: seq<nat>)
    requires n <= |rules| == |ids| == |backendOk| && Distinct(ids) && forall i :: 0 <= i < |ids| ==> ids[i] !in rows
    ensures Chosen(rules, e, backendOk, n, at)
    ensures var (rows', targets) := FanOut(rows, rules, e, ids, backendOk, now, n);
            Enqueued(rows, rules, e, ids, now, at, rows', targets)
  {
    at := [];
    if n > 0 {
      var r := n - 1;
      at := FanOutIsExact(rows, rules, e, ids, backendOk, now, r);
      var (before, targets) := FanOut(rows, rules, e, ids, backendOk, now, r);
      NotYetEnqueued(rows, rules, e, ids, now, at, before, targets, r);
      if Matches(rules[r], e) && backendOk[r] {
        ChooseOne(rules, e, backendOk, r, at);
        EnqueueOne(rows, rules, e, ids, now, at, before, targets, r);
        at := at + [r];
      }
    }
  }

  lemma NotYetEnqueued(rows: Attempts, rules: seq<Rule>, e: LifecycleEvent, ids: seq<Id>, now: Timestamp, at: seq<nat>,
                       before: Attempts, targets: Targets, r: nat)
    requires |rules| == |ids| && r < |rules| && Distinct(ids) && ids[r] !in rows
    requires forall i :: 0 <= i < |at| ==> at[i] < r
    requires Enqueued(rows, rules, e, ids, now, at, before, targets)
    ensures ids[r] !in before
  {
    forall i | 0 <= i < |at| ensures ids[at[i]] != ids[r] {
    }
  }

  lemma ChooseOne(rules: seq<Rule>, e: LifecycleEvent, backendOk: seq<bool>, r: nat, at: seq<nat>)
    requires r < |rules| == |backendOk| && Chosen(rules, e, backendOk, r, at) && Matches(rules[r], e) && backendOk[r]
    ensures Chosen(rules, e, backendOk, r + 1, at + [r])
  {
  }

  lemma EnqueueOne(rows: Attempts, rules: seq<Rule>, e: LifecycleEvent, ids: seq<Id>, now: Timestamp, at: seq<nat>,
                   before: Attempts, targets: Targets, r: nat)
    requires |rules| == |ids| && (forall i :: 0 <= i < |at| ==> at[i] < r) && r < |rules|
    requires Enqueued(rows, rules, e, ids, now, at, before, targets) && ids[r] !in before
    ensures Enqueued(rows, rules, e, ids, now, at + [r], before[ids[r] := PendingRow(rules[r], e, ids[r], now)],
                     targets + [(ids[r], rules[r].target)])
  {
    var at', after := at + [r], before[ids[r] := PendingRow(rules[r], e, ids[r], now)];
    forall id | id in after ensures id in rows || exists i :: 0 <= i < |at'| && ids[at'[i]] == id {
      if id == ids[r] {
        assert ids[at'[|at|]] == id;
      } else if id !in rows {
        var i :| 0 <= i < |at| && ids[at[i]] == id;
        assert ids[at'[i]] == id;
      }
    }
  }
}

/** The two-task notification protocol: the consumer inserts rows and sends dispatches over a
    bounded channel, the worker completes the rows, and either task may be shut down or aborted
    at any point. Every interleaving is a sequence of the steps below. */
module Protocol {
  import opened Types
  import opened Notifications

  const CHANNEL_CAPACITY: nat := 256

  datatype Consumer =
    | Idle
    | FanningOut(targets: Targets)   // for the last announced event, `visited` rules done
    | Sending(dispatch: Dispatch)
    | ConsumerGone

  datatype Worker =
    | Waiting
    | Working(dispatch: Dispatch, next: nat)
    | WorkerGone

  /** `announced` are the lifecycle events handed to the fan-out so far, and `visited` counts
      the rules done for the last of them. The last five fields are history: every attempt id
      ever drawn, the (event, rule) each inserted row was made for, the pairs whose insert
      failed, the rows removed by retention, and the attempts whose update failed. */
  datatype Exchange = Exchange(
    rows: Attempts,
    consumer: Consumer,
    queue: seq<Dispatch>,
    worker: Worker,
    announced: seq<LifecycleEvent>,
    visited: nat,
    drawn: set<Id>,
    origin: map<Id, (nat, nat)>,
    failed: set<(nat, nat)>,
    swept: set<Id>,
    stuck: set<Id>)

  datatype Step =
    | Announce(event: LifecycleEvent)
    | VisitRule(id: Id, backendOk: bool, now: Timestamp)
    | Finish
    | Send
    | SendToClosed
    | Receive
    | Complete(receipt: Receipt, backendOk: bool)
    | FinishDispatch
    | StopWorker     // shutdown broadcast while waiting, or the channel closed
    | AbortWorker
    | AbortConsumer  // also the consumer's own return
    | SweepAttempts(cutoff: Timestamp)

  const EMPTY := Exchange(map[], Idle, [], Waiting, [], 0, {}, map[], {}, {}, {})

  predicate Enabled(rules: seq<Rule>, s: Exchange, step: Step) {
    match step
    case Announce(_) => s.consumer.Idle?
    case VisitRule(id, _, _) => s.consumer.FanningOut? && s.visited < |rules| && id !in s.drawn
    case Finish => s.consumer.FanningOut? && s.visited == |rules|
    case Send => s.consumer.Sending? && |s.queue| < CHANNEL_CAPACITY && !s.worker.WorkerGone?
    case SendToClosed => s.consumer.Sending? && s.worker.WorkerGone?
    case Receive => s.worker.Waiting? && s.queue != []
    case Complete(_, _) => s.worker.Working? && s.worker.next < |s.worker.dispatch.targets|
    case FinishDispatch => s.worker.Working? && s.worker.next == |s.worker.dispatch.targets|
    case StopWorker => s.worker.Waiting?
    case AbortWorker => true
    case AbortConsumer => true
    case SweepAttempts(_) => true
  }

  function Apply(rules: seq<Rule>, s: Exchange, step: Step): Exchange
    requires Enabled(rules, s, step)
  {
    match step
    case Announce(e) => s.(consumer := FanningOut([]), announced := s.announced + [e], visited := 0)
    case VisitRule(id, backendOk, now) => VisitRuleStep(rules, s, id, backendOk, now)
    case Finish =>
      var targets := s.consumer.targets;
      s.(consumer := if targets == [] || s.announced == [] then Idle
                     else Sending(Dispatch(s.announced[|s.announced| - 1], |s.announced| - 1, IdsOf(targets), targets)))
    case Send => s.(consumer := Idle, queue := s.queue + [s.consumer.dispatch])
    case SendToClosed => s.(consumer := Idle)
    case Receive => s.(worker := Working(s.queue[0], 0), queue := s.queue[1..])
    case Complete(receipt, backendOk) =>
      var id := s.worker.dispatch.targets[s.worker.next].0;
      s.(rows := if backendOk then CompletedRows(s.rows, id, receipt, None) else s.rows,
         worker := Working(s.worker.dispatch, s.worker.next + 1),
         stuck := if backendOk then s.stuck else s.stuck + {id})
    case FinishDispatch => s.(worker := Waiting)
    case StopWorker => s.(worker := WorkerGone, queue := [])
    case AbortWorker => s.(worker := WorkerGone, queue := [])
    case AbortConsumer => s.(consumer := ConsumerGone)
    case SweepAttempts(cutoff) =>
      var kept := SweptAttempts(s.rows, cutoff);
      s.(rows := kept, swept := s.swept + (s.rows.Keys - kept.Keys))
  }

  function VisitRuleStep(rules: seq<Rule>, s: Exchange, id: Id, backendOk: bool, now: Timestamp): Exchange
    requires s.consumer.FanningOut? && s.visited < |rules|
  {
    if s.announced == [] then s
    else
      var no := |s.announced| - 1;
      var (rows, targets) := FanOutOne(s.rows, s.consumer.targets, rules[s.visited], s.announced[no], id, backendOk, now);
      var matches := Matches(rules[s.visited], s.announced[no]);
      var inserted := matches && backendOk && id !in s.rows;
      s.(rows := rows,
         consumer := FanningOut(targets),
         visited := s.visited + 1,
         drawn := s.drawn + {id},
         origin := if inserted then s.origin[id := (no, s.visited)] else s.origin,
         failed := if matches && !inserted then s.failed + {(no, s.visited)} else s.failed)
  }

  ghost predicate IsPath(rules: seq<Rule>, states: seq<Exchange>, steps: seq<Step>) {
    |states| == |steps| + 1
    && forall i :: 0 <= i < |steps| ==> Enabled(rules, states[i], steps[i])
                                        && states[i + 1] == Apply(rules, states[i], steps[i])
  }

  ghost predicate IsRun(rules: seq<Rule>, states: seq<Exchange>, steps: seq<Step>) {
    IsPath(rules, states, steps) && states[0] == EMPTY
  }

  // ---- Ids in flight ---------------------------------------------------------------------------

  function ConsumerIds(c: Consumer): multiset<Id> {
    match c
    case FanningOut(targets) => multiset(IdsOf(targets))
    case Sending(d) => multiset(IdsOf(d.targets))
    case _ => multiset{}
  }

  function QueueIds(queue: seq<Dispatch>): multiset<Id> {
    if queue == [] then multiset{} else multiset(IdsOf(queue[0].targets)) + QueueIds(queue[1..])
  }

  function WorkerIds(w: Worker): multiset<Id> {
    match w
    case Working(d, next) => if next <= |d.targets| then multiset(IdsOf(d.targets[next..])) else multiset{}
    case _ => multiset{}
  }

  /** Every attempt id held by the consumer, queued, or still to be processed by the worker. */
  function InFlight(s: Exchange): multiset<Id> {
    ConsumerIds(s.consumer) + QueueIds(s.queue) + WorkerIds(s.worker)
  }

  // ---- Invariant ----------------------------------------------------------------------------------

  ghost predicate Inv(rules: seq<Rule>, s: Exchange) {
    Bookkeeping(rules, s) && FlightsArePending(s)
    && HistoryOk(rules, s.announced, s.visited, s.origin, s.failed)
    && RowsOk(rules, s.announced, s.origin, s.rows)
    && DispatchesOk(rules, s)
    && PendingFlies(s)
  }

  ghost predicate Bookkeeping(rules: seq<Rule>, s: Exchange) {
    s.visited <= |rules|
    && (s.announced == [] ==> s.visited == 0)
    && (s.consumer.FanningOut? || s.consumer.Sending? ==> s.announced != [])
    && (s.announced != [] && (s.consumer.Idle? || s.consumer.Sending?) ==> s.visited == |rules|)
    && s.origin.Keys <= s.drawn
    && s.swept <= s.origin.Keys
    && s.rows.Keys == s.origin.Keys - s.swept
    && (s.worker.Working? ==> s.worker.next <= |s.worker.dispatch.targets|)
    && (s.worker.WorkerGone? ==> s.queue == [])
    && |s.queue| <= CHANNEL_CAPACITY
  }

  /** No id is in flight twice, and each one's row is there and pending. */
  ghost predicate FlightsArePending(s: Exchange) {
    forall id :: id in InFlight(s) ==> InFlight(s)[id] == 1 && id in s.rows && s.rows[id].status == Pending
  }

  predicate TaskGone(s: Exchange) {
    s.consumer.ConsumerGone? || s.worker.WorkerGone?
  }

  /** While both tasks live, a pending row is in flight unless its update failed. */
  ghost predicate PendingFlies(s: Exchange) {
    TaskGone(s) || forall id :: id in s.rows && s.rows[id].status == Pending ==> id in InFlight(s) || id in s.stuck
  }

  /** Event `e` has been offered to rule `r`, when the last of `n` events was offered to the
      first `visited` rules. */
  predicate Visited(n: nat, visited: nat, e: nat, r: nat) {
    e + 1 < n || (e + 1 == n && r < visited)
  }

  ghost predicate HistoryOk(rules: seq<Rule>, announced: seq<LifecycleEvent>, visited: nat,
                            origin: map<Id, (nat, nat)>, failed: set<(nat, nat)>)
  {
    (forall id :: id in origin ==> Offered(rules, announced, visited, origin[id]))
    && (forall a, b :: a in origin && b in origin && origin[a] == origin[b] ==> a == b)
    && (forall p :: p in failed ==> Offered(rules, announced, visited, p))
    && (forall id :: id in origin ==> origin[id] !in failed)
    && forall p :: Offered(rules, announced, visited, p) ==> p in failed || Inserted(origin, p)
  }

  ghost predicate Inserted(origin: map<Id, (nat, nat)>, p: (nat, nat)) {
    exists id :: id in origin && origin[id] == p
  }

  /** The event of `p` was offered to the rule of `p`, which matches it. */
  predicate Offered(rules: seq<Rule>, announced: seq<LifecycleEvent>, visited: nat, p: (nat, nat)) {
    p.0 < |announced| && p.1 < |rules| && Visited(|announced|, visited, p.0, p.1) && Matches(rules[p.1], announced[p.0])
  }

  ghost predicate RowsOk(rules: seq<Rule>, announced: seq<LifecycleEvent>, origin: map<Id, (nat, nat)>, rows: Attempts) {
    forall id :: id in rows ==> id in origin && RowOk(rules, announced, origin[id], id, rows[id])
  }

  /** A row describes its event and rule, and is pending or terminal: never FailedTransient. */
  predicate RowOk(rules: seq<Rule>, announced: seq<LifecycleEvent>, p: (nat, nat), id: Id, row: Attempt) {
    p.0 < |announced| && p.1 < |rules|
    && row.id == id && row.ruleId == rules[p.1].id
    && row.incidentId == announced[p.0].incident.id && row.lifecycleKind == KindOf(announced[p.0])
    && row.attemptNumber == 1 && row.nextRetryAt == None
    && match row.outcome
       case None => row.status == Pending && row.externalRef.None? && row.completedAt.None?
       case Some(o) =>
         row.status == (if o.Delivered? then Succeeded else FailedPermanent)
         && row.externalRef == (if o.Delivered? then o.externalRef else None) && row.completedAt.Some?
  }

  /** Every dispatch there is, oldest first: the worker's, the queued ones, the consumer's. */
  function Dispatches(s: Exchange): seq<Dispatch> {
    AtWorker(s.worker) + s.queue + AtConsumer(s.consumer)
  }

  function AtWorker(w: Worker): seq<Dispatch> {
    if w.Working? then [w.dispatch] else []
  }

  function AtConsumer(c: Consumer): seq<Dispatch> {
    if c.Sending? then [c.dispatch] else []
  }

  ghost predicate DispatchesOk(rules: seq<Rule>, s: Exchange) {
    SequenceOk(rules, s.announced, s.origin, Dispatches(s))
    && (forall k :: 0 <= k < |Dispatches(s)| && Dispatches(s)[k].eventNo + 1 == |s.announced| ==> s.visited == |rules|)
    && (s.consumer.FanningOut? ==>
          s.announced != []
          && TargetsOk(rules, |s.announced| - 1, s.visited, s.origin, s.consumer.targets)
          && forall k :: 0 <= k < |Dispatches(s)| ==> Dispatches(s)[k].eventNo < |s.announced| - 1)
  }

  /** Dispatches are in the order of their events, one for an event at most. */
  ghost predicate SequenceOk(rules: seq<Rule>, announced: seq<LifecycleEvent>, origin: map<Id, (nat, nat)>, ds: seq<Dispatch>) {
    (forall k :: 0 <= k < |ds| ==> DispatchOk(rules, announced, origin, ds[k]))
    && forall k, l :: 0 <= k < l < |ds| ==> ds[k].eventNo < ds[l].eventNo
  }

  ghost predicate DispatchOk(rules: seq<Rule>, announced: seq<LifecycleEvent>, origin: map<Id, (nat, nat)>, d: Dispatch) {
    d.eventNo < |announced| && d.event == announced[d.eventNo]
    && d.targets != [] && d.attempts == IdsOf(d.targets)
    && TargetsOk(rules, d.eventNo, |rules|, origin, d.targets)
  }

  function RuleOf(origin: map<Id, (nat, nat)>, id: Id): nat {
    if id in origin then origin[id].1 else 0
  }

  /** The targets are those of the rows inserted for event `no` and the first `n` rules: all of
      them, in rule order, each with its rule's target. */
  ghost predicate TargetsOk(rules: seq<Rule>, no: nat, n: nat, origin: map<Id, (nat, nat)>, targets: Targets) {
    n <= |rules|
    && (forall i :: 0 <= i < |targets| ==> TargetOk(rules, no, n, origin, targets[i]))
    && (forall i, j :: 0 <= i < j < |targets| ==> RuleOf(origin, targets[i].0) < RuleOf(origin, targets[j].0))
    && forall id :: id in origin && origin[id].0 == no ==> Listed(targets, id)
  }

  predicate TargetOk(rules: seq<Rule>, no: nat, n: nat, origin: map<Id, (nat, nat)>, t: (Id, string))
    requires n <= |rules|
  {
    t.0 in origin && origin[t.0].0 == no && origin[t.0].1 < n && t.1 == rules[origin[t.0].1].target
  }

  ghost predicate Listed(targets: Targets, id: Id) {
    exists i :: 0 <= i < |targets| && targets[i].0 == id
  }

  // ---- Lemmas about flights -----------------------------------------------------------------------

  lemma {:induction false} QueueAppend(queue: seq<Dispatch>, d: Dispatch)
    ensures QueueIds(queue + [d]) == QueueIds(queue) + multiset(IdsOf(d.targets))
    decreases |queue|
  {
    if queue == [] {
      assert [d][1..] == [];
    } else {
      QueueAppend(queue[1..], d);
      assert (queue + [d])[1..] == queue[1..] + [d];
    }
  }

  lemma TargetsFront(targets: Targets, next: nat)
    requires next < |targets|
    ensures multiset(IdsOf(targets[next..])) == multiset{targets[next].0} + multiset(IdsOf(targets[next + 1..]))
  {
    assert IdsOf(targets[next..]) == [targets[next].0] + IdsOf(targets[next + 1..]);
  }

  lemma VisitFlights(rules: seq<Rule>, s: Exchange, id: Id, backendOk: bool, now: Timestamp)
    requires Bookkeeping(rules, s) && Enabled(rules, s, VisitRule(id, backendOk, now))
    ensures var s' := VisitRuleStep(rules, s, id, backendOk, now);
            InFlight(s') == if id in s'.origin then InFlight(s) + multiset{id} else InFlight(s)
  {
    var s' := VisitRuleStep(rules, s, id, backendOk, now);
    if id in s'.origin {
      assert IdsOf(s'.consumer.targets) == IdsOf(s.consumer.targets) + [id];
    }
  }

  lemma CompleteFlights(rules: seq<Rule>, s: Exchange, receipt: Receipt, backendOk: bool)
    requires Enabled(rules, s, Complete(receipt, backendOk))
    ensures InFlight(s) == InFlight(Apply(rules, s, Complete(receipt, backendOk)))
                           + multiset{s.worker.dispatch.targets[s.worker.next].0}
  {
    TargetsFront(s.worker.dispatch.targets, s.worker.next);
  }

  lemma SendFlights(s: Exchange)
    requires s.consumer.Sending?
    ensures InFlight(s.(consumer := Idle, queue := s.queue + [s.consumer.dispatch])) == InFlight(s)
  {
    QueueAppend(s.queue, s.consumer.dispatch);
  }

  lemma ReceiveFlights(s: Exchange)
    requires s.worker.Waiting? && s.queue != []
    ensures InFlight(s.(worker := Working(s.queue[0], 0), queue := s.queue[1..])) == InFlight(s)
  {
    assert s.queue[0].targets[0..] == s.queue[0].targets;
  }

  lemma FinishFlights(s: Exchange, c: Consumer)
    requires ConsumerIds(c) <= ConsumerIds(s.consumer)
    ensures InFlight(s.(consumer := c)) <= InFlight(s)
  {
  }

  lemma WorkerStopsFlights(s: Exchange, w: Worker, queue: seq<Dispatch>)
    requires WorkerIds(w) == multiset{} && (queue == s.queue || queue == [])
    ensures InFlight(s.(worker := w, queue := queue)) <= InFlight(s)
  {
  }

  /** Every other step only hands ids on or drops them with a dying task. */
  lemma OtherFlights(rules: seq<Rule>, s: Exchange, step: Step)
    requires Enabled(rules, s, step) && !step.VisitRule? && !step.Complete?
    ensures InFlight(Apply(rules, s, step)) <= InFlight(s)
  {
    match step
    case Send => SendFlights(s);
    case Receive => ReceiveFlights(s);
    case Announce(_) => assert IdsOf([]) == [];
    case Finish => FinishFlights(s, Apply(rules, s, step).consumer);
    case SendToClosed => FinishFlights(s, Idle);
    case AbortConsumer => FinishFlights(s, ConsumerGone);
    case FinishDispatch => WorkerStopsFlights(s, Waiting, s.queue);
    case StopWorker => WorkerStopsFlights(s, WorkerGone, []);
    case AbortWorker => WorkerStopsFlights(s, WorkerGone, []);
    case SweepAttempts(_) =>
  }

  lemma VisitKeepsFlights(rules: seq<Rule>, s: Exchange, drawn: Id, backendOk: bool, now: Timestamp)
    requires Bookkeeping(rules, s) && FlightsArePending(s) && Enabled(rules, s, VisitRule(drawn, backendOk, now))
    ensures FlightsArePending(VisitRuleStep(rules, s, drawn, backendOk, now))
  {
    var s' := VisitRuleStep(rules, s, drawn, backendOk, now);
    VisitFlights(rules, s, drawn, backendOk, now);
    assert drawn !in s.rows;
    assert drawn !in InFlight(s);
    forall id | id in InFlight(s') ensures InFlight(s')[id] == 1 && id in s'.rows && s'.rows[id].status == Pending {
      if id != drawn { assert id in InFlight(s); }
    }
  }

  lemma CompleteKeepsFlights(rules: seq<Rule>, s: Exchange, receipt: Receipt, backendOk: bool)
    requires FlightsArePending(s) && Enabled(rules, s, Complete(receipt, backendOk))
    ensures FlightsArePending(Apply(rules, s, Complete(receipt, backendOk)))
  {
    var s', done := Apply(rules, s, Complete(receipt, backendOk)), s.worker.dispatch.targets[s.worker.next].0;
    CompleteFlights(rules, s, receipt, backendOk);
    assert done in InFlight(s);
    forall id | id in InFlight(s') ensures InFlight(s')[id] == 1 && id in s'.rows && s'.rows[id].status == Pending {
      assert id in InFlight(s);
      assert id != done;
    }
  }

  lemma OtherKeepsFlights(rules: seq<Rule>, s: Exchange, step: Step)
    requires Bookkeeping(rules, s) && FlightsArePending(s) && Enabled(rules, s, step)
    requires !step.VisitRule? && !step.Complete?
    ensures FlightsArePending(Apply(rules, s, step))
  {
    var s' := Apply(rules, s, step);
    OtherFlights(rules, s, step);
    forall id | id in InFlight(s') ensures InFlight(s')[id] == 1 && id in s'.rows && s'.rows[id].status == Pending {
      assert id in InFlight(s);
    }
  }

  lemma StepKeepsFlights(rules: seq<Rule>, s: Exchange, step: Step)
    requires Bookkeeping(rules, s) && FlightsArePending(s) && Enabled(rules, s, step)
    ensures FlightsArePending(Apply(rules, s, step))
  {
    match step
    case VisitRule(id, backendOk, now) => VisitKeepsFlights(rules, s, id, backendOk, now);
    case Complete(receipt, backendOk) => CompleteKeepsFlights(rules, s, receipt, backendOk);
    case _ => OtherKeepsFlights(rules, s, step);
  }

  lemma InFlightWorker(s: Exchange)
    requires s.worker.Working? && s.worker.next < |s.worker.dispatch.targets|
    ensures s.worker.dispatch.targets[s.worker.next].0 in InFlight(s)
  {
    TargetsFront(s.worker.dispatch.targets, s.worker.next);
  }

  lemma VisitKeepsBookkeeping(rules: seq<Rule>, s: Exchange, id: Id, backendOk: bool, now: Timestamp)
    requires Bookkeeping(rules, s) && Enabled(rules, s, VisitRule(id, backendOk, now))
    ensures Bookkeeping(rules, VisitRuleStep(rules, s, id, backendOk, now))
  {
    var s' := VisitRuleStep(rules, s, id, backendOk, now);
    assert id !in s.origin && id !in s.swept && id !in s.rows;
    assert s'.rows.Keys == s'.origin.Keys - s'.swept;
  }

  lemma StepKeepsBookkeeping(rules: seq<Rule>, s: Exchange, step: Step)
    requires Bookkeeping(rules, s) && Enabled(rules, s, step)
    ensures Bookkeeping(rules, Apply(rules, s, step))
  {
    match step
    case VisitRule(id, backendOk, now) => VisitKeepsBookkeeping(rules, s, id, backendOk, now);
    case Complete(_, _) =>
      assert Apply(rules, s, step).rows.Keys == s.rows.Keys;
    case SweepAttempts(cutoff) =>
      assert SweptAttempts(s.rows, cutoff).Keys <= s.rows.Keys;
    case _ =>
  }

  // ---- Lemmas about the history --------------------------------------------------------------------

  lemma VisitKeepsHistory(rules: seq<Rule>, announced: seq<LifecycleEvent>, visited: nat, origin: map<Id, (nat, nat)>,
                          failed: set<(nat, nat)>, id: Id, inserted: bool)
    requires HistoryOk(rules, announced, visited, origin, failed)
    requires announced != [] && visited < |rules| && id !in origin
    requires inserted ==> Matches(rules[visited], announced[|announced| - 1])
    ensures var p := (|announced| - 1, visited);
            HistoryOk(rules, announced, visited + 1,
                      if inserted then origin[id := p] else origin,
                      if Matches(rules[visited], announced[p.0]) && !inserted then failed + {p} else failed)
  {
    var p := (|announced| - 1, visited);
    var origin' := if inserted then origin[id := p] else origin;
    var failed' := if Matches(rules[visited], announced[p.0]) && !inserted then failed + {p} else failed;
    assert !Offered(rules, announced, visited, p);
    forall q ensures Offered(rules, announced, visited + 1, q)
                     <==> Offered(rules, announced, visited, q) || (q == p && Matches(rules[visited], announced[p.0]))
    {
    }
    forall q | Offered(rules, announced, visited + 1, q) ensures q in failed' || Inserted(origin', q) {
      if q == p {
        if inserted { assert origin'[id] == p; }
      } else if q !in failed {
        assert Inserted(origin, q);
        var a :| a in origin && origin[a] == q;
        assert a in origin' && origin'[a] == q;
      }
    }
  }

  lemma AnnounceKeepsHistory(rules: seq<Rule>, announced: seq<LifecycleEvent>, visited: nat, origin: map<Id, (nat, nat)>,
                             failed: set<(nat, nat)>, e: LifecycleEvent)
    requires HistoryOk(rules, announced, visited, origin, failed)
    requires announced != [] ==> visited == |rules|
    ensures HistoryOk(rules, announced + [e], 0, origin, failed)
  {
    forall q ensures Offered(rules, announced + [e], 0, q) <==> Offered(rules, announced, visited, q) {
    }
  }

  lemma OthersLeaveHistory(rules: seq<Rule>, s: Exchange, step: Step)
    requires Enabled(rules, s, step) && !step.VisitRule? && !step.Announce?
    ensures var s' := Apply(rules, s, step);
            s'.announced == s.announced && s'.visited == s.visited && s'.origin == s.origin && s'.failed == s.failed
  {
  }

  lemma VisitMoves(rules: seq<Rule>, s: Exchange, id: Id, backendOk: bool, now: Timestamp)
    requires s.announced != [] && Enabled(rules, s, VisitRule(id, backendOk, now))
    ensures var s', p := VisitRuleStep(rules, s, id, backendOk, now), (|s.announced| - 1, s.visited);
            var matches := Matches(rules[s.visited], s.announced[p.0]);
            var inserted := matches && backendOk && id !in s.rows;
            s'.announced == s.announced && s'.visited == s.visited + 1
            && s'.origin == (if inserted then s.origin[id := p] else s.origin)
            && s'.failed == (if matches && !inserted then s.failed + {p} else s.failed)
  {
  }

  lemma VisitStepKeepsHistory(rules: seq<Rule>, s: Exchange, id: Id, backendOk: bool, now: Timestamp)
    requires Bookkeeping(rules, s) && HistoryOk(rules, s.announced, s.visited, s.origin, s.failed)
    requires Enabled(rules, s, VisitRule(id, backendOk, now))
    ensures var s' := VisitRuleStep(rules, s, id, backendOk, now); HistoryOk(rules, s'.announced, s'.visited, s'.origin, s'.failed)
  {
    VisitMoves(rules, s, id, backendOk, now);
    VisitKeepsHistory(rules, s.announced, s.visited, s.origin, s.failed, id,
                      Matches(rules[s.visited], s.announced[|s.announced| - 1]) && backendOk && id !in s.rows);
  }

  lemma StepKeepsHistory(rules: seq<Rule>, s: Exchange, step: Step)
    requires Bookkeeping(rules, s) && HistoryOk(rules, s.announced, s.visited, s.origin, s.failed) && Enabled(rules, s, step)
    ensures var s' := Apply(rules, s, step); HistoryOk(rules, s'.announced, s'.visited, s'.origin, s'.failed)
  {
    if step.VisitRule? {
      VisitStepKeepsHistory(rules, s, step.id, step.backendOk, step.now);
    } else if step.Announce? {
      AnnounceKeepsHistory(rules, s.announced, s.visited, s.origin, s.failed, step.event);
    } else {
      OthersLeaveHistory(rules, s, step);
    }
  }

  /** `rows'` and `origin'` extend the old ones by what one step can do to a row. */
  lemma RowsStayOk(rules: seq<Rule>, announced: seq<LifecycleEvent>, announced': seq<LifecycleEvent>,
                   origin: map<Id, (nat, nat)>, origin': map<Id, (nat, nat)>, rows: Attempts, rows': Attempts)
    requires RowsOk(rules, announced, origin, rows) && announced <= announced'
    requires forall id :: id in origin ==> id in origin' && origin'[id] == origin[id]
    requires forall id :: id in rows' ==>
               if id in rows then rows'[id] == rows[id] || (exists r :: rows'[id] == CompletedRow(rows[id], r, None))
               else id in origin' && RowOk(rules, announced', origin'[id], id, rows'[id])
    ensures RowsOk(rules, announced', origin', rows')
  {
    forall id | id in rows' ensures id in origin' && RowOk(rules, announced', origin'[id], id, rows'[id]) {
      if id in rows {
        assert RowOk(rules, announced, origin[id], id, rows[id]);
      }
    }
  }

  lemma StepKeepsRows(rules: seq<Rule>, s: Exchange, step: Step)
    requires Bookkeeping(rules, s) && Enabled(rules, s, step) && RowsOk(rules, s.announced, s.origin, s.rows)
    ensures var s' := Apply(rules, s, step); RowsOk(rules, s'.announced, s'.origin, s'.rows)
  {
    var s' := Apply(rules, s, step);
    if step.Complete? {
      var id := s.worker.dispatch.targets[s.worker.next].0;
      assert id in s.rows && step.backendOk ==> s'.rows[id] == CompletedRow(s.rows[id], step.receipt, None);
    }
    RowsStayOk(rules, s.announced, s'.announced, s.origin, s'.origin, s.rows, s'.rows);
  }

  // ---- Lemmas about pending rows -------------------------------------------------------------------

  /** A step that no task dies of hands every id on. */
  lemma LiveFlights(rules: seq<Rule>, s: Exchange, step: Step)
    requires Bookkeeping(rules, s) && Enabled(rules, s, step) && !step.VisitRule? && !step.Complete?
    requires !TaskGone(Apply(rules, s, step))
    ensures InFlight(Apply(rules, s, step)) == InFlight(s)
  {
    match step
    case Send => SendFlights(s);
    case Receive => ReceiveFlights(s);
    case Announce(_) => assert IdsOf([]) == [];
    case Finish => assert s.consumer.targets == [] ==> IdsOf(s.consumer.targets) == [];
    case FinishDispatch => assert IdsOf(s.worker.dispatch.targets[s.worker.next..]) == [];
    case SweepAttempts(_) =>
  }

  lemma VisitKeepsPending(rules: seq<Rule>, s: Exchange, drawn: Id, backendOk: bool, now: Timestamp)
    requires Bookkeeping(rules, s) && PendingFlies(s) && Enabled(rules, s, VisitRule(drawn, backendOk, now))
    ensures PendingFlies(VisitRuleStep(rules, s, drawn, backendOk, now))
  {
    VisitFlights(rules, s, drawn, backendOk, now);
    var s' := VisitRuleStep(rules, s, drawn, backendOk, now);
    forall id | id in s.rows && s.rows[id].status == Pending && id in InFlight(s) ensures id in InFlight(s') {
    }
  }

  lemma CompleteKeepsPending(rules: seq<Rule>, s: Exchange, receipt: Receipt, backendOk: bool)
    requires PendingFlies(s) && Enabled(rules, s, Complete(receipt, backendOk))
    ensures PendingFlies(Apply(rules, s, Complete(receipt, backendOk)))
  {
    CompleteFlights(rules, s, receipt, backendOk);
  }

  lemma StepKeepsPending(rules: seq<Rule>, s: Exchange, step: Step)
    requires Bookkeeping(rules, s) && PendingFlies(s) && Enabled(rules, s, step)
    ensures PendingFlies(Apply(rules, s, step))
  {
    match step
    case VisitRule(id, backendOk, now) => VisitKeepsPending(rules, s, id, backendOk, now);
    case Complete(receipt, backendOk) => CompleteKeepsPending(rules, s, receipt, backendOk);
    case _ =>
      if !TaskGone(Apply(rules, s, step)) {
        LiveFlights(rules, s, step);
      }
  }

  // ---- Lemmas about dispatches ---------------------------------------------------------------------

  /** A row inserted for another event leaves a list of targets as complete as it was. */
  lemma OthersTargets(rules: seq<Rule>, no: nat, n: nat, origin: map<Id, (nat, nat)>, targets: Targets, id: Id, p: (nat, nat))
    requires TargetsOk(rules, no, n, origin, targets) && id !in origin && p.0 != no
    ensures TargetsOk(rules, no, n, origin[id := p], targets)
  {
  }

  lemma VisitTargets(rules: seq<Rule>, no: nat, n: nat, origin: map<Id, (nat, nat)>, targets: Targets, id: Id, inserted: bool)
    requires TargetsOk(rules, no, n, origin, targets) && id !in origin && n < |rules|
    ensures TargetsOk(rules, no, n + 1, if inserted then origin[id := (no, n)] else origin,
                      if inserted then targets + [(id, rules[n].target)] else targets)
  {
    if inserted {
      var origin', targets' := origin[id := (no, n)], targets + [(id, rules[n].target)];
      forall a | a in origin' && origin'[a].0 == no ensures Listed(targets', a) {
        if a == id {
          assert targets'[|targets|].0 == id;
        } else {
          var i :| 0 <= i < |targets| && targets[i].0 == a;
          assert targets'[i].0 == a;
        }
      }
    }
  }

  lemma VisitSequence(rules: seq<Rule>, announced: seq<LifecycleEvent>, origin: map<Id, (nat, nat)>, ds: seq<Dispatch>, id: Id, p: (nat, nat))
    requires SequenceOk(rules, announced, origin, ds) && id !in origin
    requires forall k :: 0 <= k < |ds| ==> ds[k].eventNo < p.0
    ensures SequenceOk(rules, announced, origin[id := p], ds)
  {
    forall k | 0 <= k < |ds| ensures DispatchOk(rules, announced, origin[id := p], ds[k]) {
      OthersTargets(rules, ds[k].eventNo, |rules|, origin, ds[k].targets, id, p);
    }
  }

  lemma VisitKeepsDispatches(rules: seq<Rule>, s: Exchange, id: Id, backendOk: bool, now: Timestamp)
    requires Bookkeeping(rules, s) && DispatchesOk(rules, s) && Enabled(rules, s, VisitRule(id, backendOk, now))
    ensures DispatchesOk(rules, VisitRuleStep(rules, s, id, backendOk, now))
  {
    var s', no := VisitRuleStep(rules, s, id, backendOk, now), |s.announced| - 1;
    var inserted := Matches(rules[s.visited], s.announced[no]) && backendOk && id !in s.rows;
    VisitTargets(rules, no, s.visited, s.origin, s.consumer.targets, id, inserted);
    if inserted {
      VisitSequence(rules, s.announced, s.origin, Dispatches(s), id, (no, s.visited));
    }
    assert Dispatches(s') == Dispatches(s);
  }

  lemma AnnounceKeepsDispatches(rules: seq<Rule>, s: Exchange, e: LifecycleEvent)
    requires DispatchesOk(rules, s) && s.consumer.Idle? && forall id :: id in s.origin ==> s.origin[id].0 < |s.announced|
    ensures DispatchesOk(rules, Apply(rules, s, Announce(e)))
  {
    assert Dispatches(Apply(rules, s, Announce(e))) == Dispatches(s);
  }

  lemma FinishKeepsDispatches(rules: seq<Rule>, s: Exchange)
    requires DispatchesOk(rules, s) && Enabled(rules, s, Finish)
    ensures DispatchesOk(rules, Apply(rules, s, Finish))
  {
    var s', targets := Apply(rules, s, Finish), s.consumer.targets;
    if targets != [] {
      assert Dispatches(s') == Dispatches(s) + [s'.consumer.dispatch];
    } else {
      assert Dispatches(s') == Dispatches(s);
    }
  }

  /** Every other step keeps the dispatches or drops some at either end. */
  lemma OtherDispatches(rules: seq<Rule>, s: Exchange, step: Step) returns (lo: nat, hi: nat)
    requires Enabled(rules, s, step) && !step.VisitRule? && !step.Announce? && !step.Finish?
    ensures lo <= hi <= |Dispatches(s)| && Dispatches(Apply(rules, s, step)) == Dispatches(s)[lo..hi]
  {
    if step.Send? || step.SendToClosed? || step.AbortConsumer? {
      hi := ConsumerDispatches(rules, s, step);
      lo := 0;
    } else {
      lo := WorkerDispatches(rules, s, step);
      hi := |Dispatches(s)|;
    }
  }

  lemma ConsumerDispatches(rules: seq<Rule>, s: Exchange, step: Step) returns (hi: nat)
    requires Enabled(rules, s, step) && (step.Send? || step.SendToClosed? || step.AbortConsumer?)
    ensures hi <= |Dispatches(s)| && Dispatches(Apply(rules, s, step)) == Dispatches(s)[..hi]
  {
    hi := |Dispatches(s)|;
    match step
    case Send => SendMoves(AtWorker(s.worker), s.queue, s.consumer.dispatch);
    case SendToClosed =>
      hi := hi - 1;
      KeepsFront(AtWorker(s.worker), s.queue, AtConsumer(s.consumer));
    case AbortConsumer =>
      hi := hi - |AtConsumer(s.consumer)|;
      KeepsFront(AtWorker(s.worker), s.queue, AtConsumer(s.consumer));
  }

  lemma WorkerDispatches(rules: seq<Rule>, s: Exchange, step: Step) returns (lo: nat)
    requires Enabled(rules, s, step)
    requires step.Receive? || step.Complete? || step.FinishDispatch? || step.StopWorker? || step.AbortWorker? || step.SweepAttempts?
    ensures lo <= |Dispatches(s)| && Dispatches(Apply(rules, s, step)) == Dispatches(s)[lo..]
  {
    lo := 0;
    match step
    case Receive => ReceiveMoves(s.queue, AtConsumer(s.consumer));
    case FinishDispatch =>
      lo := 1;
      KeepsBack(AtWorker(s.worker), s.queue, AtConsumer(s.consumer));
    case StopWorker =>
      lo := |s.queue|;
      KeepsEnd(AtWorker(s.worker), s.queue, AtConsumer(s.consumer));
    case AbortWorker =>
      lo := |AtWorker(s.worker)| + |s.queue|;
      KeepsEnd(AtWorker(s.worker), s.queue, AtConsumer(s.consumer));
    case Complete(_, _) =>
    case SweepAttempts(_) =>
  }

  lemma SendMoves(a: seq<Dispatch>, q: seq<Dispatch>, d: Dispatch)
    ensures a + (q + [d]) + [] == a + q + [d]
  {
  }

  lemma ReceiveMoves(q: seq<Dispatch>, c: seq<Dispatch>)
    requires q != []
    ensures [q[0]] + q[1..] + c == [] + q + c
  {
    assert [q[0]] + q[1..] == q;
  }

  lemma KeepsFront(a: seq<Dispatch>, q: seq<Dispatch>, c: seq<Dispatch>)
    ensures a + q + [] == (a + q + c)[..|a| + |q|]
  {
  }

  lemma KeepsBack(a: seq<Dispatch>, q: seq<Dispatch>, c: seq<Dispatch>)
    ensures [] + q + c == (a + q + c)[|a|..]
  {
  }

  lemma KeepsEnd(a: seq<Dispatch>, q: seq<Dispatch>, c: seq<Dispatch>)
    ensures [] + [] + c == (a + q + c)[|a| + |q|..]
  {
  }

  lemma OtherKeepsDispatches(rules: seq<Rule>, s: Exchange, step: Step)
    requires DispatchesOk(rules, s) && Enabled(rules, s, step) && !step.VisitRule? && !step.Announce? && !step.Finish?
    ensures DispatchesOk(rules, Apply(rules, s, step))
  {
    OthersLeaveHistory(rules, s, step);
    var lo, hi := OtherDispatches(rules, s, step);
    OthersLeaveFanOut(rules, s, step);
    FewerDispatches(rules, s, Apply(rules, s, step), lo, hi);
  }

  lemma FewerDispatches(rules: seq<Rule>, s: Exchange, s': Exchange, lo: nat, hi: nat)
    requires DispatchesOk(rules, s) && lo <= hi <= |Dispatches(s)| && Dispatches(s') == Dispatches(s)[lo..hi]
    requires s'.announced == s.announced && s'.visited == s.visited && s'.origin == s.origin
    requires s'.consumer.FanningOut? ==> s'.consumer == s.consumer
    ensures DispatchesOk(rules, s')
  {
    var ds, ds' := Dispatches(s), Dispatches(s');
    assert forall k :: 0 <= k < |ds'| ==> ds'[k] == ds[lo + k];
    SliceKeepsOrder(rules, s.announced, s.origin, ds, lo, hi);
  }

  lemma OthersLeaveFanOut(rules: seq<Rule>, s: Exchange, step: Step)
    requires Enabled(rules, s, step) && !step.VisitRule? && !step.Announce? && !step.Finish?
    ensures Apply(rules, s, step).consumer.FanningOut? ==> Apply(rules, s, step).consumer == s.consumer
  {
  }

  lemma SliceKeepsOrder(rules: seq<Rule>, announced: seq<LifecycleEvent>, origin: map<Id, (nat, nat)>, ds: seq<Dispatch>, lo: nat, hi: nat)
    requires SequenceOk(rules, announced, origin, ds) && lo <= hi <= |ds|
    ensures SequenceOk(rules, announced, origin, ds[lo..hi])
  {
  }

  lemma StepKeepsDispatches(rules: seq<Rule>, s: Exchange, step: Step)
    requires Bookkeeping(rules, s) && DispatchesOk(rules, s) && Enabled(rules, s, step)
    requires HistoryOk(rules, s.announced, s.visited, s.origin, s.failed)
    ensures DispatchesOk(rules, Apply(rules, s, step))
  {
    match step
    case VisitRule(id, backendOk, now) => VisitKeepsDispatches(rules, s, id, backendOk, now);
    case Announce(e) => AnnounceKeepsDispatches(rules, s, e);
    case Finish => FinishKeepsDispatches(rules, s);
    case _ => OtherKeepsDispatches(rules, s, step);
  }

  lemma StepKeepsInv(rules: seq<Rule>, s: Exchange, step: Step)
    requires Inv(rules, s) && Enabled(rules, s, step)
    ensures Inv(rules, Apply(rules, s, step))
  {
    StepKeepsBookkeeping(rules, s, step);
    StepKeepsFlights(rules, s, step);
    StepKeepsHistory(rules, s, step);
    StepKeepsRows(rules, s, step);
    StepKeepsDispatches(rules, s, step);
    StepKeepsPending(rules, s, step);
  }

  lemma EmptyInv(rules: seq<Rule>)
    ensures Inv(rules, EMPTY)
  {
  }

  lemma {:induction false} RunsKeepInv(rules: seq<Rule>, states: seq<Exchange>, steps: seq<Step>, i: nat)
    requires IsRun(rules, states, steps) && i < |states|
    ensures Inv(rules, states[i])
  {
    if i == 0 {
      EmptyInv(rules);
    } else {
      RunsKeepInv(rules, states, steps, i - 1);
      assert states[i - 1 + 1] == Apply(rules, states[i - 1], steps[i - 1]);
      StepKeepsInv(rules, states[i - 1], steps[i - 1]);
    }
  }

  lemma RunKeepsFlights(rules: seq<Rule>, states: seq<Exchange>, steps: seq<Step>, i: nat)
    requires IsRun(rules, states, steps) && i < |states|
    ensures FlightsArePending(states[i])
  {
    RunsKeepInv(rules, states, steps, i);
  }

  lemma {:induction false} StuckMeansFailed(rules: seq<Rule>, states: seq<Exchange>, steps: seq<Step>, i: nat, id: Id) returns (j: nat)
    requires IsRun(rules, states, steps) && i < |states| && id in states[i].stuck
    ensures j < i && steps[j].Complete? && !steps[j].backendOk && states[j].worker.Working?
    ensures states[j].worker.next < |states[j].worker.dispatch.targets|
            && states[j].worker.dispatch.targets[states[j].worker.next].0 == id
  {
    j := i - 1;
    assert states[j + 1] == Apply(rules, states[j], steps[j]);
    if id in states[j].stuck {
      j := StuckMeansFailed(rules, states, steps, j, id);
    }
  }

  /** No attempt is forgotten: while both tasks live, a row is pending exactly while its id is in
      flight, or because its update failed. When they rest, only failed updates are pending. */
  lemma PendingIsInFlight(rules: seq<Rule>, states: seq<Exchange>, steps: seq<Step>, i: nat, id: Id)
    requires IsRun(rules, states, steps) && i < |states| && !TaskGone(states[i])
    ensures id in InFlight(states[i]) ==> id in states[i].rows && states[i].rows[id].status == Pending
    ensures id in states[i].rows && states[i].rows[id].status == Pending ==> id in InFlight(states[i]) || id in states[i].stuck
    ensures var s := states[i];
            s.consumer.Idle? && s.queue == [] && s.worker.Waiting? && id in s.rows && id !in s.stuck ==>
              s.rows[id].status != Pending
    ensures |states[i].queue| <= 256
    ensures states[i].consumer.Sending? ==> (Enabled(rules, states[i], Send) <==> |states[i].queue| < 256)
  {
    RunsKeepInv(rules, states, steps, i);
  }

  lemma RunKeepsDispatches(rules: seq<Rule>, states: seq<Exchange>, steps: seq<Step>, i: nat)
    requires IsRun(rules, states, steps) && i < |states|
    ensures DispatchesOk(rules, states[i])
    ensures var s := states[i]; HistoryOk(rules, s.announced, s.visited, s.origin, s.failed)
  {
    RunsKeepInv(rules, states, steps, i);
  }

  // ---- Protocol safety ------------------------------------------------------------------------------

  /** Under every interleaving, each attempt id the consumer holds, the channel carries or the
      worker has still to process is there only once, and has a row, which is pending. So the
      worker only ever completes pending rows, although completing never looks at the status. */
  lemma FlightsArePendingAlways(rules: seq<Rule>, states: seq<Exchange>, steps: seq<Step>, i: nat, id: Id)
    requires IsRun(rules, states, steps) && i < |states| && id in InFlight(states[i])
    ensures InFlight(states[i])[id] == 1
    ensures id in states[i].rows && states[i].rows[id].status == Pending
  {
    RunsKeepInv(rules, states, steps, i);
  }

  /** What may become of a row that was `row`: it keeps its identity, a terminal row never
      changes again, and a pending row is never removed. */
  predicate LaterVersion(s: Exchange, id: Id, row: Attempt) {
    id in s.drawn
    && (id in s.rows ==> SameIdentity(row, s.rows[id]) && (row.status != Pending ==> s.rows[id] == row))
  }

  lemma CompleteKeepsVersion(s: Exchange, done: Id, receipt: Receipt, id: Id, row: Attempt)
    requires LaterVersion(s, id, row) && done in s.rows && s.rows[done].status == Pending
    ensures LaterVersion(s.(rows := CompletedRows(s.rows, done, receipt, None)), id, row)
  {
  }

  lemma StepKeepsVersion(rules: seq<Rule>, s: Exchange, step: Step, id: Id, row: Attempt)
    requires Bookkeeping(rules, s) && FlightsArePending(s) && Enabled(rules, s, step) && LaterVersion(s, id, row)
    ensures LaterVersion(Apply(rules, s, step), id, row)
    ensures id in s.rows && s.rows[id].status == Pending ==> id in Apply(rules, s, step).rows
    ensures id !in s.rows ==> id !in Apply(rules, s, step).rows
  {
    match step
    case VisitRule(drawn, _, _) => assert drawn != id;
    case Complete(receipt, _) =>
      InFlightWorker(s);
      CompleteKeepsVersion(s, s.worker.dispatch.targets[s.worker.next].0, receipt, id, row);
    case SweepAttempts(_) =>
    case _ => assert Apply(rules, s, step).rows == s.rows;
  }

  lemma RunKeepsVersion(rules: seq<Rule>, states: seq<Exchange>, steps: seq<Step>, j: nat, id: Id, row: Attempt)
    requires IsRun(rules, states, steps) && j < |steps| && LaterVersion(states[j], id, row)
    ensures LaterVersion(states[j + 1], id, row)
    ensures id !in states[j + 1].rows ==> id !in states[j].rows || TerminalIn(states[j], id)
    ensures id !in states[j].rows ==> id !in states[j + 1].rows
  {
    RunsKeepInv(rules, states, steps, j);
    StepKeepsVersion(rules, states[j], steps[j], id, row);
  }

  lemma StoredIsDrawn(rules: seq<Rule>, states: seq<Exchange>, steps: seq<Step>, i: nat, id: Id)
    requires IsRun(rules, states, steps) && i < |states| && id in states[i].rows
    ensures id in states[i].drawn
  {
    RunsKeepInv(rules, states, steps, i);
  }

  /** Each row changes its status at most once, from pending to terminal: between any two
      moments of any run a row keeps its identity, a terminal row is unchanged or gone for
      good, and only a terminal row is ever removed. */
  lemma {:induction false} RowsChangeOnce(rules: seq<Rule>, states: seq<Exchange>, steps: seq<Step>, i: nat, j: nat, id: Id)
    requires IsRun(rules, states, steps) && i <= j < |states| && id in states[i].rows
    ensures LaterVersion(states[j], id, states[i].rows[id])
    ensures id !in states[j].rows ==> exists k :: i <= k < j && TerminalIn(states[k], id)
    ensures id in states[j].rows ==> forall k :: i <= k <= j ==> id in states[k].rows
    decreases j
  {
    if i == j {
      StoredIsDrawn(rules, states, steps, i, id);
    } else {
      RowsChangeOnce(rules, states, steps, i, j - 1, id);
      RunKeepsVersion(rules, states, steps, j - 1, id, states[i].rows[id]);
    }
  }

  predicate TerminalIn(s: Exchange, id: Id) {
    id in s.rows && s.rows[id].status != Pending
  }

  // ---- Conservation -------------------------------------------------------------------------------------

  /** `id` is the stored attempt of pair `p`. */
  predicate AttemptFor(s: Exchange, p: (nat, nat), id: Id) {
    id in s.rows && id in s.origin && s.origin[id] == p
  }

  /** In every reachable state the rows ever inserted correspond one to one to the pairs of an
      announced event and a matching rule it was offered to, less the pairs whose insert failed;
      all of them are still stored except those removed by retention. */
  lemma AttemptsAreConserved(rules: seq<Rule>, states: seq<Exchange>, steps: seq<Step>, i: nat, p: (nat, nat))
    requires IsRun(rules, states, steps) && i < |states|
    ensures var s := states[i];
            (Inserted(s.origin, p) <==> p.0 < |s.announced| && p.1 < |rules| && Visited(|s.announced|, s.visited, p.0, p.1)
                                        && Wants(rules[p.1], s.announced[p.0]) && p !in s.failed)
            && (s.swept == {} ==> (Inserted(s.origin, p) <==> exists id :: AttemptFor(s, p, id)))
            && forall a, b :: AttemptFor(s, p, a) && AttemptFor(s, p, b) ==> a == b
  {
    if p.0 < |states[i].announced| && p.1 < |rules| {
      MatchesIsWants(rules[p.1], states[i].announced[p.0]);
    }
    RunsKeepInv(rules, states, steps, i);
    var s := states[i];
    if s.swept == {} {
      if id :| id in s.origin && s.origin[id] == p {
        assert AttemptFor(s, p, id);
      }
    }
  }

  /** Every stored row names the rule, the incident and the kind of event it was made for, and
      is pending or terminal. It has one because its rule wants the event: a disabled rule, a rule
      that names other kinds and a rule with a higher floor own no row. No row is ever FailedTransient, so nothing is due for a retry. */
  lemma RowsTellTheirOrigin(rules: seq<Rule>, states: seq<Exchange>, steps: seq<Step>, i: nat, id: Id, now: Timestamp)
    requires IsRun(rules, states, steps) && i < |states|
    ensures Retryable(states[i].rows, now) == {}
    ensures id in states[i].rows ==>
              var s := states[i];
              id in s.origin && Offered(rules, s.announced, s.visited, s.origin[id])
              && Wants(rules[s.origin[id].1], s.announced[s.origin[id].0])
              && var row, e, r := s.rows[id], s.announced[s.origin[id].0], rules[s.origin[id].1];
                 row.ruleId == r.id && row.incidentId == e.incident.id && row.attemptNumber == 1
                 && (row.lifecycleKind == OpenedKind <==> e.Opened?) && (row.lifecycleKind == EscalatedKind <==> e.Escalated?)
                 && (row.status == Pending || row.status == Succeeded || row.status == FailedPermanent)
                 && (row.outcome == Some(Transient) ==> row.status == FailedPermanent)
  {
    RunsKeepInv(rules, states, steps, i);
    if id in states[i].rows {
      MatchesIsWants(rules[states[i].origin[id].1], states[i].announced[states[i].origin[id].0]);
    }
    forall a | a in states[i].rows ensures states[i].rows[a].status != FailedTransient {
      assert RowOk(rules, states[i].announced, states[i].origin[a], a, states[i].rows[a]);
    }
  }

  /** Which inserts went through for event `no`, rule by rule. */
  function StoredFor(rules: seq<Rule>, failed: set<(nat, nat)>, no: nat): seq<bool> {
    seq(|rules|, r requires 0 <= r < |rules| => (no, r) !in failed)
  }

  /** In every reachable state each dispatch the worker has, the channel carries or the consumer
      is sending tells one announced event and lists, in rule order, exactly the attempts of the
      matching rules whose insert went through, each with its rule's target; dispatches are in
      the order of their events, and no event has two. */
  lemma DispatchesAreExact(rules: seq<Rule>, states: seq<Exchange>, steps: seq<Step>, i: nat, k: nat) returns (at: seq<nat>)
    requires IsRun(rules, states, steps) && i < |states| && k < |Dispatches(states[i])|
    ensures var s, d := states[i], Dispatches(states[i])[k];
            d.eventNo < |s.announced| && d.event == s.announced[d.eventNo]
            && d.targets != [] && d.attempts == IdsOf(d.targets) && |at| == |d.targets|
            && Chosen(rules, d.event, StoredFor(rules, s.failed, d.eventNo), |rules|, at)
            && (forall j :: 0 <= j < |at| ==>
                  d.targets[j].1 == rules[at[j]].target && d.targets[j].0 in s.origin
                  && s.origin[d.targets[j].0] == (d.eventNo, at[j]))
            && forall l :: k < l < |Dispatches(s)| ==> d.eventNo < Dispatches(s)[l].eventNo
  {
    RunKeepsDispatches(rules, states, steps, i);
    at := DispatchIsExact(rules, states[i], Dispatches(states[i])[k]);
  }

  lemma DispatchIsExact(rules: seq<Rule>, s: Exchange, d: Dispatch) returns (at: seq<nat>)
    requires HistoryOk(rules, s.announced, s.visited, s.origin, s.failed)
    requires DispatchOk(rules, s.announced, s.origin, d) && (d.eventNo + 1 == |s.announced| ==> s.visited == |rules|)
    ensures |at| == |d.targets| && Chosen(rules, d.event, StoredFor(rules, s.failed, d.eventNo), |rules|, at)
    ensures forall j :: 0 <= j < |at| ==>
              d.targets[j].1 == rules[at[j]].target && d.targets[j].0 in s.origin
              && s.origin[d.targets[j].0] == (d.eventNo, at[j])
  {
    at := seq(|d.targets|, j requires 0 <= j < |d.targets| => RuleOf(s.origin, d.targets[j].0));
    forall j | 0 <= j < |at|
      ensures s.origin[d.targets[j].0] == (d.eventNo, at[j])
      ensures at[j] < |rules| && Matches(rules[at[j]], d.event) && (d.eventNo, at[j]) !in s.failed
    {
      assert TargetOk(rules, d.eventNo, |rules|, s.origin, d.targets[j]);
    }
    forall r: nat | r < |rules| && Matches(rules[r], d.event) && (d.eventNo, r) !in s.failed ensures r in at {
      RuleIsListed(rules, s, d, r);
      var j :| 0 <= j < |d.targets| && d.targets[j].0 in s.origin && s.origin[d.targets[j].0] == (d.eventNo, r);
      assert at[j] == r;
    }
  }

  lemma RuleIsListed(rules: seq<Rule>, s: Exchange, d: Dispatch, r: nat)
    requires HistoryOk(rules, s.announced, s.visited, s.origin, s.failed)
    requires DispatchOk(rules, s.announced, s.origin, d) && (d.eventNo + 1 == |s.announced| ==> s.visited == |rules|)
    requires r < |rules| && Matches(rules[r], d.event) && (d.eventNo, r) !in s.failed
    ensures exists j :: 0 <= j < |d.targets| && d.targets[j].0 in s.origin && s.origin[d.targets[j].0] == (d.eventNo, r)
  {
    var p := (d.eventNo, r);
    assert Offered(rules, s.announced, s.visited, p);
    assert Inserted(s.origin, p);
    var id :| id in s.origin && s.origin[id] == p;
    assert Listed(d.targets, id);
    var j :| 0 <= j < |d.targets| && d.targets[j].0 == id;
  }

  // ---- The tasks' code is runs of these steps ------------------------------------------------------------

  lemma PathAppend(rules: seq<Rule>, states: seq<Exchange>, steps: seq<Step>, step: Step)
    requires IsPath(rules, states, steps) && Enabled(rules, states[|steps|], step)
    ensures IsPath(rules, states + [Apply(rules, states[|steps|], step)], steps + [step])
  {
  }

  function VisitSteps(e: LifecycleEvent, ids: seq<Id>, backendOk: seq<bool>, now: Timestamp, n: nat): seq<Step>
    requires n <= |ids| == |backendOk|
  {
    if n == 0 then [Announce(e)]
    else VisitSteps(e, ids, backendOk, now, n - 1) + [VisitRule(ids[n - 1], backendOk[n - 1], now)]
  }

  /** The state after the first `n` rules of a fan-out that started in `s`. */
  ghost predicate FannedOut(rules: seq<Rule>, s: Exchange, e: LifecycleEvent, ids: seq<Id>, backendOk: seq<bool>,
                            now: Timestamp, n: nat, s': Exchange)
    requires n <= |rules| == |ids| == |backendOk|
  {
    s'.consumer.FanningOut?
    && (s'.rows, s'.consumer.targets) == FanOut(s.rows, rules, e, ids, backendOk, now, n)
    && s'.announced == s.announced + [e] && s'.visited == n && s'.queue == s.queue && s'.worker == s.worker
    && forall id :: id in s'.drawn ==> id in s.drawn || id in ids[..n]
  }

  lemma {:induction false} VisitsFanOut(rules: seq<Rule>, s: Exchange, e: LifecycleEvent, ids: seq<Id>, backendOk: seq<bool>,
                                        now: Timestamp, n: nat) returns (states: seq<Exchange>)
    requires s.consumer.Idle? && n <= |rules| == |ids| == |backendOk|
    requires Distinct(ids) && forall r :: 0 <= r < |ids| ==> ids[r] !in s.drawn
    ensures IsPath(rules, states, VisitSteps(e, ids, backendOk, now, n)) && states[0] == s
    ensures FannedOut(rules, s, e, ids, backendOk, now, n, states[|states| - 1])
  {
    if n == 0 {
      states := [s, Apply(rules, s, Announce(e))];
    } else {
      states := VisitsFanOut(rules, s, e, ids, backendOk, now, n - 1);
      var last, step := states[|states| - 1], VisitRule(ids[n - 1], backendOk[n - 1], now);
      assert ids[n - 1] !in last.drawn;
      PathAppend(rules, states, VisitSteps(e, ids, backendOk, now, n - 1), step);
      VisitsOneMore(rules, s, e, ids, backendOk, now, n - 1, last);
      states := states + [Apply(rules, last, step)];
    }
  }

  lemma VisitsOneMore(rules: seq<Rule>, s: Exchange, e: LifecycleEvent, ids: seq<Id>, backendOk: seq<bool>, now: Timestamp,
                      n: nat, last: Exchange)
    requires n < |rules| == |ids| == |backendOk| && FannedOut(rules, s, e, ids, backendOk, now, n, last)
    ensures FannedOut(rules, s, e, ids, backendOk, now, n + 1, VisitRuleStep(rules, last, ids[n], backendOk[n], now))
  {
    assert ids[..n + 1] == ids[..n] + [ids[n]];
    assert last.announced[|last.announced| - 1] == e;
  }

  /** The consumer's fan-out of one event, from drawing fresh ids to handing over the dispatch, is
      a path of the protocol: announcing, visiting every rule, finishing. */
  lemma FanOutIsAPath(rules: seq<Rule>, s: Exchange, e: LifecycleEvent, ids: seq<Id>, backendOk: seq<bool>, now: Timestamp)
      returns (states: seq<Exchange>)
    requires s.consumer.Idle? && |rules| == |ids| == |backendOk|
    requires Distinct(ids) && forall r :: 0 <= r < |ids| ==> ids[r] !in s.drawn
    ensures IsPath(rules, states, VisitSteps(e, ids, backendOk, now, |rules|) + [Finish]) && states[0] == s
    ensures var (rows, targets) := FanOut(s.rows, rules, e, ids, backendOk, now, |rules|);
            var s' := states[|states| - 1];
            s'.rows == rows && s'.queue == s.queue && s'.worker == s.worker
            && s'.consumer == if targets == [] then Idle else Sending(Dispatch(e, |s.announced|, IdsOf(targets), targets))
  {
    states := VisitsFanOut(rules, s, e, ids, backendOk, now, |rules|);
    var last := states[|states| - 1];
    PathAppend(rules, states, VisitSteps(e, ids, backendOk, now, |rules|), Finish);
    states := states + [Apply(rules, last, Finish)];
  }

  function CompleteSteps(receipts: seq<Receipt>, completeOk: seq<bool>, n: nat): seq<Step>
    requires n <= |receipts| && n <= |completeOk|
  {
    if n == 0 then [] else CompleteSteps(receipts, completeOk, n - 1) + [Complete(receipts[n - 1], completeOk[n - 1])]
  }

  /** `stuck` with the attempts among the first `n` whose update failed. */
  function Stuck(stuck: set<Id>, targets: Targets, completeOk: seq<bool>, n: nat): set<Id>
    requires n <= |targets| && n <= |completeOk|
  {
    if n == 0 then stuck
    else Stuck(stuck, targets, completeOk, n - 1) + if completeOk[n - 1] then {} else {targets[n - 1].0}
  }

  lemma {:induction false} CompletionsWorkOff(rules: seq<Rule>, s: Exchange, receipts: seq<Receipt>, completeOk: seq<bool>, n: nat)
      returns (states: seq<Exchange>)
    requires s.worker.Working? && s.worker.next == 0
    requires n <= |s.worker.dispatch.targets| == |receipts| == |completeOk|
    ensures IsPath(rules, states, CompleteSteps(receipts, completeOk, n)) && states[0] == s
    ensures var d := s.worker.dispatch;
            states[|states| - 1] == s.(rows := WorkedOff(s.rows, d.targets, receipts, completeOk, n), worker := Working(d, n),
                                       stuck := Stuck(s.stuck, d.targets, completeOk, n))
  {
    if n == 0 {
      states := [s];
    } else {
      states := CompletionsWorkOff(rules, s, receipts, completeOk, n - 1);
      var step := Complete(receipts[n - 1], completeOk[n - 1]);
      PathAppend(rules, states, CompleteSteps(receipts, completeOk, n - 1), step);
      states := states + [Apply(rules, states[|states| - 1], step)];
    }
  }

  /** The worker's processing of one dispatch is a path of the protocol: completing every target
      in turn, then finishing. It leaves the rows that `ProcessDispatch` leaves. */
  lemma WorkIsAPath(rules: seq<Rule>, s: Exchange, receipts: seq<Receipt>, completeOk: seq<bool>) returns (states: seq<Exchange>)
    requires s.worker.Working? && s.worker.next == 0 && |s.worker.dispatch.targets| == |receipts| == |completeOk|
    ensures IsPath(rules, states, CompleteSteps(receipts, completeOk, |receipts|) + [FinishDispatch]) && states[0] == s
    ensures states[|states| - 1]
            == s.(rows := WorkedOff(s.rows, s.worker.dispatch.targets, receipts, completeOk, |receipts|), worker := Waiting,
                  stuck := Stuck(s.stuck, s.worker.dispatch.targets, completeOk, |receipts|))
  {
    states := CompletionsWorkOff(rules, s, receipts, completeOk, |receipts|);
    PathAppend(rules, states, CompleteSteps(receipts, completeOk, |receipts|), FinishDispatch);
    states := states + [Apply(rules, states[|states| - 1], FinishDispatch)];
  }

  /** What working off the whole dispatch makes of the row of `id`: if it is listed, it was
      pending and holds the outcome of its own send, or is as it was when that update failed. */
  ghost predicate Attempted(rows: Attempts, targets: Targets, receipts: seq<Receipt>, completeOk: seq<bool>, id: Id, row: Attempt)
    requires id in rows && |targets| == |receipts| == |completeOk|
  {
    (!Listed(targets, id) ==> row == rows[id])
    && forall j :: 0 <= j < |targets| && targets[j].0 == id ==>
         rows[id].status == Pending && if completeOk[j] then Ended(rows[id], receipts[j], row) else row == rows[id]
  }

  /** Whenever the worker takes up a dispatch and works it off, every listed attempt was pending
      and now holds the outcome of its own send, or is still pending when that update failed; no
      other row is touched. */
  lemma WorkEndsItsAttempts(rules: seq<Rule>, states: seq<Exchange>, steps: seq<Step>, i: nat,
                            receipts: seq<Receipt>, completeOk: seq<bool>, id: Id)
    requires IsRun(rules, states, steps) && i < |states| && id in states[i].rows
    requires var w := states[i].worker;
             w.Working? && w.next == 0 && |w.dispatch.targets| == |receipts| == |completeOk|
    ensures var s, targets := states[i], states[i].worker.dispatch.targets;
            var rows' := WorkedOff(s.rows, targets, receipts, completeOk, |receipts|);
            rows'.Keys == s.rows.Keys && Attempted(s.rows, targets, receipts, completeOk, id, rows'[id])
  {
    RunKeepsFlights(rules, states, steps, i);
    RunKeepsDispatches(rules, states, steps, i);
    var s, targets := states[i], states[i].worker.dispatch.targets;
    WorkingTargetsDiffer(rules, s);
    WorkedOffIsSettled(s.rows, targets, receipts, completeOk, |receipts|);
    forall j | 0 <= j < |targets| && targets[j].0 == id ensures s.rows[id].status == Pending {
      WorkingTargetInFlight(s, j);
    }
    SettledDistinct(s.rows, targets, receipts, completeOk, WorkedOff(s.rows, targets, receipts, completeOk, |receipts|), id);
  }

  lemma SettledDistinct(rows: Attempts, targets: Targets, receipts: seq<Receipt>, completeOk: seq<bool>, rows': Attempts, id: Id)
    requires id in rows && |targets| == |receipts| == |completeOk|
    requires Settled(rows, targets, receipts, completeOk, |targets|, rows')
    requires forall i, j :: 0 <= i < j < |targets| ==> targets[i].0 != targets[j].0
    requires forall j :: 0 <= j < |targets| && targets[j].0 == id ==> rows[id].status == Pending
    ensures Attempted(rows, targets, receipts, completeOk, id, rows'[id])
  {
    var last := LastUpdate(targets, completeOk, |targets|, id);
    NoneIsLater(targets, completeOk, |targets|, id);
    forall j | 0 <= j < |targets| && targets[j].0 == id ensures last == if completeOk[j] then Some(j) else None {
      if last.Some? {
        assert targets[last.value].0 == targets[j].0;
      }
    }
  }

  lemma WorkingTargetsDiffer(rules: seq<Rule>, s: Exchange)
    requires DispatchesOk(rules, s) && s.worker.Working?
    ensures var targets := s.worker.dispatch.targets;
            forall i, j :: 0 <= i < j < |targets| ==> targets[i].0 != targets[j].0
  {
    assert Dispatches(s)[0] == s.worker.dispatch;
  }

  lemma WorkingTargetInFlight(s: Exchange, j: nat)
    requires s.worker.Working? && s.worker.next == 0 && j < |s.worker.dispatch.targets|
    ensures s.worker.dispatch.targets[j].0 in InFlight(s)
  {
    var targets := s.worker.dispatch.targets;
    assert targets[0..] == targets && IdsOf(targets)[j] == targets[j].0;
  }
}

/** The consumer's fan-out of a batch's lifecycle events to notification attempts. */
module FanOuts {
  import opened Types
  import opened Notifications

  /** What the outside world decides while one lifecycle event is fanned out: the attempt id
      drawn for each rule and whether its insert reaches the repository. */
  datatype FanIo = FanIo(ids: seq<Id>, backendOk: seq<bool>)

  /** `fans(k)` is for the k-th event of the batch. */
  ghost predicate ValidFans(rules: seq<Rule>, fans: nat -> FanIo) {
    forall k: nat :: |fans(k).ids| == |fans(k).backendOk| == |rules|
  }

  /** The attempt rows after the events are fanned out in order, and the dispatches sent. */
  ghost function NotifyAll(rules: seq<Rule>, rows: Attempts, events: seq<LifecycleEvent>,
                           fans: nat -> FanIo, now: Timestamp): (Attempts, seq<Dispatch>)
    requires ValidFans(rules, fans)
  {
    if events == [] then (rows, [])
    else
      var k := |events| - 1;
      var (before, sent) := NotifyAll(rules, rows, events[..k], fans, now);
      var (after, targets) := FanOut(before, rules, events[k], fans(k).ids, fans(k).backendOk, now, |rules|);
      (after, sent + if targets == [] then []
                     else [Dispatch(events[k], k, IdsOf(targets), targets)])
  }

  lemma NotifyOneMore(rules: seq<Rule>, rows: Attempts, events: seq<LifecycleEvent>, e: LifecycleEvent,
                      fans: nat -> FanIo, now: Timestamp)
    requires ValidFans(rules, fans)
    ensures var (before, sent) := NotifyAll(rules, rows, events, fans, now);
            var k := |events|;
            var (after, targets) := FanOut(before, rules, e, fans(k).ids, fans(k).backendOk, now, |rules|);
            NotifyAll(rules, rows, events + [e], fans, now)
            == (after, if targets == [] then sent
                       else sent + [Dispatch(e, k, IdsOf(targets), targets)])
  {
    assert (events + [e])[..|events|] == events;
    var sent := NotifyAll(rules, rows, events, fans, now).1;
    assert sent + [] == sent;
  }

  /** The attempt id drawn for event `k` and rule `r`. */
  ghost function FanId(rules: seq<Rule>, fans: nat -> FanIo, k: nat, r: nat): Id
    requires ValidFans(rules, fans) && r < |rules|
  {
    fans(k).ids[r]
  }

  /** The ids drawn for the first `n` events are new and all different. */
  ghost predicate FreshFans(rules: seq<Rule>, rows: Attempts, fans: nat -> FanIo, n: nat)
    requires ValidFans(rules, fans)
  {
    (forall k: nat, r: nat :: k < n && r < |rules| ==> FanId(rules, fans, k, r) !in rows)
    && forall k: nat, r: nat, k': nat, r': nat ::
         k < n && r < |rules| && k' < n && r' < |rules| && FanId(rules, fans, k, r) == FanId(rules, fans, k', r') ==> k == k' && r == r'
  }

  /** Rule `r` wants the event and its insert goes through. */
  ghost predicate GetsRow(rules: seq<Rule>, e: LifecycleEvent, fan: FanIo, r: nat)
    requires r < |rules| == |fan.backendOk|
  {
    Wants(rules[r], e) && fan.backendOk[r]
  }

  /** `d` tells event `k` and lists the rules that get a row, in order, with their targets. */
  ghost predicate Tells(d: Dispatch, rules: seq<Rule>, e: LifecycleEvent, fan: FanIo, at: seq<nat>)
    requires |fan.ids| == |fan.backendOk| == |rules|
  {
    d.event == e && |d.targets| == |d.attempts| == |at|
    && (forall i :: 0 <= i < |at| ==> at[i] < |rules| && GetsRow(rules, e, fan, at[i])
                                      && d.targets[i] == (fan.ids[at[i]], rules[at[i]].target) && d.attempts[i] == fan.ids[at[i]])
    && (forall i, j :: 0 <= i < j < |at| ==> at[i] < at[j])
    && forall r: nat :: r < |rules| && GetsRow(rules, e, fan, r) ==> r in at
  }

  ghost predicate TellsSome(d: Dispatch, rules: seq<Rule>, e: LifecycleEvent, fan: FanIo)
    requires |fan.ids| == |fan.backendOk| == |rules|
  {
    exists at :: at != [] && Tells(d, rules, e, fan, at)
  }

  /** The rows of the first `n` events: one pending row for each event and rule that gets one. */
  ghost predicate RowsNotified(rules: seq<Rule>, rows: Attempts, events: seq<LifecycleEvent>,
                               fans: nat -> FanIo, now: Timestamp, n: nat, rows': Attempts)
    requires ValidFans(rules, fans) && n <= |events|
  {
    (forall id :: id in rows ==> id in rows' && rows'[id] == rows[id])
    && (forall id :: id in rows' && id !in rows ==> DrawnFor(rules, fans, n, id))
    && forall k: nat, r: nat :: k < n && r < |rules| ==>
         (FanId(rules, fans, k, r) in rows' <==> GetsRow(rules, events[k], fans(k), r))
         && (FanId(rules, fans, k, r) in rows' ==>
               Awaits(rows'[FanId(rules, fans, k, r)], rules[r], events[k], FanId(rules, fans, k, r), now))
  }

  ghost predicate DrawnFor(rules: seq<Rule>, fans: nat -> FanIo, n: nat, id: Id)
    requires ValidFans(rules, fans)
  {
    exists k: nat, r: nat :: k < n && r < |rules| && FanId(rules, fans, k, r) == id
  }

  /** One event's fan-out adds its rows and nothing else. */
  ghost predicate EventNotified(rules: seq<Rule>, before: Attempts, e: LifecycleEvent, fan: FanIo,
                                now: Timestamp, after: Attempts)
    requires |fan.ids| == |fan.backendOk| == |rules|
  {
    (forall id :: id in before ==> id in after && after[id] == before[id])
    && (forall id :: id in after && id !in before ==> id in fan.ids)
    && forall r: nat :: r < |rules| ==>
         (fan.ids[r] in after <==> GetsRow(rules, e, fan, r))
         && (fan.ids[r] in after ==> Awaits(after[fan.ids[r]], rules[r], e, fan.ids[r], now))
  }

  lemma ChosenGetRows(rules: seq<Rule>, e: LifecycleEvent, fan: FanIo, at: seq<nat>)
    requires |fan.ids| == |fan.backendOk| == |rules| && Chosen(rules, e, fan.backendOk, |rules|, at)
    ensures forall i :: 0 <= i < |at| ==> at[i] < |rules| && GetsRow(rules, e, fan, at[i])
    ensures forall r: nat :: r < |rules| && GetsRow(rules, e, fan, r) ==> r in at
  {
    forall r: nat | r < |rules| ensures GetsRow(rules, e, fan, r) <==> Matches(rules[r], e) && fan.backendOk[r] {
      MatchesIsWants(rules[r], e);
    }
  }

  lemma RowIffChosen(rows: Attempts, rules: seq<Rule>, e: LifecycleEvent, ids: seq<Id>, now: Timestamp, at: seq<nat>,
                     rows': Attempts, targets: Targets, r: nat)
    requires |rules| == |ids| && Distinct(ids) && r < |rules| && ids[r] !in rows
    requires (forall i :: 0 <= i < |at| ==> at[i] < |rules|) && Enqueued(rows, rules, e, ids, now, at, rows', targets)
    ensures ids[r] in rows' <==> r in at
    ensures ids[r] in rows' ==> Awaits(rows'[ids[r]], rules[r], e, ids[r], now)
  {
    if ids[r] in rows' {
      var i :| 0 <= i < |at| && ids[at[i]] == ids[r];
      assert at[i] == r;
    }
    if r in at {
      var i :| 0 <= i < |at| && at[i] == r;
      assert ids[at[i]] in rows';
    }
  }

  lemma FanOutNotifies(rules: seq<Rule>, before: Attempts, e: LifecycleEvent, fan: FanIo, now: Timestamp) returns (at: seq<nat>)
    requires |fan.ids| == |fan.backendOk| == |rules| && Distinct(fan.ids)
    requires forall r: nat :: r < |rules| ==> fan.ids[r] !in before
    ensures var (after, targets) := FanOut(before, rules, e, fan.ids, fan.backendOk, now, |rules|);
            EventNotified(rules, before, e, fan, now, after) && |at| == |targets|
            && forall k :: Tells(Dispatch(e, k, IdsOf(targets), targets), rules, e, fan, at)
  {
    at := FanOutIsExact(before, rules, e, fan.ids, fan.backendOk, now, |rules|);
    var (after, targets) := FanOut(before, rules, e, fan.ids, fan.backendOk, now, |rules|);
    ChosenGetRows(rules, e, fan, at);
    forall r: nat | r < |rules|
      ensures fan.ids[r] in after <==> GetsRow(rules, e, fan, r)
      ensures fan.ids[r] in after ==> Awaits(after[fan.ids[r]], rules[r], e, fan.ids[r], now)
    {
      RowIffChosen(before, rules, e, fan.ids, now, at, after, targets, r);
    }
  }

  lemma NextRows(rules: seq<Rule>, rows: Attempts, events: seq<LifecycleEvent>, fans: nat -> FanIo, now: Timestamp, n: nat,
                 before: Attempts, after: Attempts)
    requires ValidFans(rules, fans) && n < |events| && FreshFans(rules, rows, fans, n + 1)
    requires RowsNotified(rules, rows, events, fans, now, n, before)
    requires EventNotified(rules, before, events[n], fans(n), now, after)
    requires forall r: nat :: r < |rules| ==> FanId(rules, fans, n, r) !in before
    ensures RowsNotified(rules, rows, events, fans, now, n + 1, after)
  {
    forall id | id in after && id !in rows ensures DrawnFor(rules, fans, n + 1, id) {
      if id in before {
        assert DrawnFor(rules, fans, n, id);
      } else {
        var r: nat :| r < |rules| && fans(n).ids[r] == id;
        assert FanId(rules, fans, n, r) == id;
      }
    }
    forall k: nat, r: nat | k < n + 1 && r < |rules|
      ensures FanId(rules, fans, k, r) in after <==> GetsRow(rules, events[k], fans(k), r)
      ensures FanId(rules, fans, k, r) in after ==>
                Awaits(after[FanId(rules, fans, k, r)], rules[r], events[k], FanId(rules, fans, k, r), now)
    {
      var id := FanId(rules, fans, k, r);
      if k < n {
        forall i | 0 <= i < |fans(n).ids| ensures fans(n).ids[i] != id {
          assert FanId(rules, fans, n, i) == fans(n).ids[i];
        }
      }
    }
  }

  lemma StillFresh(rules: seq<Rule>, rows: Attempts, events: seq<LifecycleEvent>, fans: nat -> FanIo, now: Timestamp, n: nat,
                   before: Attempts)
    requires ValidFans(rules, fans) && n < |events| && FreshFans(rules, rows, fans, n + 1)
    requires RowsNotified(rules, rows, events, fans, now, n, before)
    ensures forall r: nat :: r < |rules| ==> FanId(rules, fans, n, r) !in before
    ensures Distinct(fans(n).ids)
  {
    forall r: nat | r < |rules| ensures FanId(rules, fans, n, r) !in before {
      assert !DrawnFor(rules, fans, n, FanId(rules, fans, n, r));
    }
    forall i, j | 0 <= i < j < |fans(n).ids| ensures fans(n).ids[i] != fans(n).ids[j] {
      assert FanId(rules, fans, n, i) == fans(n).ids[i] && FanId(rules, fans, n, j) == fans(n).ids[j];
    }
  }

  /** The dispatches of the first `n` events: one for each event of which some rule gets a row, in
      the order of the events. */
  ghost predicate SentInOrder(rules: seq<Rule>, events: seq<LifecycleEvent>, fans: nat -> FanIo, n: nat, sent: seq<Dispatch>)
    requires ValidFans(rules, fans) && n <= |events|
  {
    (forall d :: 0 <= d < |sent| ==>
       sent[d].eventNo < n && TellsSome(sent[d], rules, events[sent[d].eventNo], fans(sent[d].eventNo)))
    && (forall d, d' :: 0 <= d < d' < |sent| ==> sent[d].eventNo < sent[d'].eventNo)
    && forall k: nat :: k < n && SomeRow(rules, events[k], fans(k)) ==> ToldBy(sent, k)
  }

  ghost predicate SomeRow(rules: seq<Rule>, e: LifecycleEvent, fan: FanIo)
    requires |fan.backendOk| == |rules|
  {
    exists r: nat :: r < |rules| && GetsRow(rules, e, fan, r)
  }

  ghost predicate ToldBy(sent: seq<Dispatch>, k: nat) {
    exists d :: 0 <= d < |sent| && sent[d].eventNo == k
  }

  lemma NextSent(rules: seq<Rule>, events: seq<LifecycleEvent>, fans: nat -> FanIo, n: nat, sent: seq<Dispatch>, d: Dispatch, at: seq<nat>)
    requires ValidFans(rules, fans) && n < |events| && SentInOrder(rules, events, fans, n, sent)
    requires d.eventNo == n && Tells(d, rules, events[n], fans(n), at)
    ensures SentInOrder(rules, events, fans, n + 1, if at == [] then sent else sent + [d])
  {
    var sent' := if at == [] then sent else sent + [d];
    if at != [] {
      assert TellsSome(d, rules, events[n], fans(n));
      assert sent'[|sent|].eventNo == n;
    }
    forall k: nat | k < n + 1 && SomeRow(rules, events[k], fans(k)) ensures ToldBy(sent', k) {
      if k < n {
        var i :| 0 <= i < |sent| && sent[i].eventNo == k;
        assert sent'[i].eventNo == k;
      } else {
        var r: nat :| r < |rules| && GetsRow(rules, events[n], fans(n), r);
        assert r in at;
        assert sent'[|sent|].eventNo == k;
      }
    }
  }

  /** Fanning out a batch's lifecycle events, with fresh ids, leaves one pending row for each event
      and each rule that wants it and whose insert goes through, and nothing else; and sends, in
      the order of the events, one dispatch for each event that got a row, listing those rules. */
  lemma {:induction false} NotifyAllIsExact(rules: seq<Rule>, rows: Attempts, events: seq<LifecycleEvent>, fans: nat -> FanIo, now: Timestamp)
    requires ValidFans(rules, fans) && FreshFans(rules, rows, fans, |events|)
    ensures var (rows', sent) := NotifyAll(rules, rows, events, fans, now);
            RowsNotified(rules, rows, events, fans, now, |events|, rows') && SentInOrder(rules, events, fans, |events|, sent)
    decreases |events|
  {
    if events != [] {
      var n := |events| - 1;
      var front, e := events[..n], events[n];
      NotifyAllIsExact(rules, rows, front, fans, now);
      var (before, sent) := NotifyAll(rules, rows, front, fans, now);
      LongerEvents(rules, rows, front, e, fans, now, before, sent);
      assert front + [e] == events;
      StillFresh(rules, rows, events, fans, now, n, before);
      forall r: nat | r < |rules| ensures fans(n).ids[r] !in before {
        assert FanId(rules, fans, n, r) == fans(n).ids[r];
      }
      var at := FanOutNotifies(rules, before, e, fans(n), now);
      var (after, targets) := FanOut(before, rules, e, fans(n).ids, fans(n).backendOk, now, |rules|);
      NextRows(rules, rows, events, fans, now, n, before, after);
      NextSent(rules, events, fans, n, sent, Dispatch(e, n, IdsOf(targets), targets), at);
      assert sent + [] == sent;
    }
  }

  lemma LongerEvents(rules: seq<Rule>, rows: Attempts, front: seq<LifecycleEvent>, e: LifecycleEvent, fans: nat -> FanIo, now: Timestamp,
                     before: Attempts, sent: seq<Dispatch>)
    requires ValidFans(rules, fans)
    requires RowsNotified(rules, rows, front, fans, now, |front|, before) && SentInOrder(rules, front, fans, |front|, sent)
    ensures RowsNotified(rules, rows, front + [e], fans, now, |front|, before)
    ensures SentInOrder(rules, front + [e], fans, |front|, sent)
  {
    assert forall k :: 0 <= k < |front| ==> (front + [e])[k] == front[k];
  }
}

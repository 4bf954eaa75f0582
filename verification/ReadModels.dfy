/** The read models: latest-wins projections and bounded metric rings, kept by one store that
    routes every observation to the projection of its payload. */
module ReadModels {
  import opened Types

  const BITCOIN_BLOCKCHAIN := "bitcoin.blockchain"
  const BITCOIN_NETWORK := "bitcoin.network"
  const BITCOIN_PEER_SUMMARY := "bitcoin.peer_summary"
  const LND_NODE := "lnd.node"
  const LND_CHANNEL_DETAIL := "lnd.channel_detail"

  function StateName(s: StateObservation): string {
    match s
    case BitcoinBlockchain(_, _, _, _) => BITCOIN_BLOCKCHAIN
    case BitcoinNetwork(_, _) => BITCOIN_NETWORK
    case BitcoinPeerSummary(_, _) => BITCOIN_PEER_SUMMARY
    case LndNodeState(_) => LND_NODE
    case LndChannelState(_, _, _) => LND_CHANNEL_DETAIL
    case OtherState(name) => name
  }

  type Key = (EntityRef, string)
  type LatestMap<V> = map<Key, Projected<V>>
  type Ring = seq<Projected<MetricObservation>>

  datatype Models = Models(
    state: LatestMap<StateObservation>,
    health: LatestMap<HealthCheck>,
    signal: LatestMap<SignalObservation>,
    metric: map<Key, Ring>)

  const NO_MODELS := Models(map[], map[], map[], map[])

  // ---- Specification ----------------------------------------------------------------------

  /** Keeps the existing value unless the new one is strictly newer. */
  function Upsert<V>(m: LatestMap<V>, k: Key, p: Projected<V>): LatestMap<V> {
    if k in m && m[k].observedAt >= p.observedAt then m else m[k := p]
  }

  function LastN<T>(s: seq<T>, n: nat): seq<T> {
    if |s| <= n then s else s[|s| - n..]
  }

  function Push(capacity: nat, rings: map<Key, Ring>, k: Key, p: Projected<MetricObservation>): map<Key, Ring> {
    rings[k := LastN((if k in rings then rings[k] else []) + [p], capacity)]
  }

  function ApplyTo(capacity: nat, m: Models, obs: Observation): Models {
    match obs.payload
    case State(s) => m.(state := Upsert(m.state, (obs.subject, StateName(s)), Projected(s, obs.id, obs.observedAt)))
    case Health(h) => m.(health := Upsert(m.health, (obs.subject, h.target), Projected(h, obs.id, obs.observedAt)))
    case IncidentSignal(s) =>
      m.(signal := Upsert(m.signal, (obs.subject, s.signal), Projected(s, obs.id, obs.observedAt)))
    case Metric(v) =>
      m.(metric := Push(capacity, m.metric, (obs.subject, v.name), Projected(v, obs.id, obs.observedAt)))
    case Capability => m
    case Heartbeat => m
    case NotProjected => m
  }

  function ApplyAll(capacity: nat, m: Models, obs: seq<Observation>): Models {
    if obs == [] then m
    else ApplyTo(capacity, ApplyAll(capacity, m, obs[..|obs| - 1]), obs[|obs| - 1])
  }

  // ---- The store ---------------------------------------------------------------------------

  class ReadModelStore {
    const capacity: nat
    var state: LatestMap<StateObservation>
    var health: LatestMap<HealthCheck>
    var signal: LatestMap<SignalObservation>
    var metric: map<Key, Ring>

    function Value(): Models
      reads this
    {
      Models(state, health, signal, metric)
    }

    constructor (capacity: nat)
      requires capacity > 0
      ensures this.capacity == capacity && Value() == NO_MODELS
    {
      this.capacity := capacity;
      state, health, signal, metric := map[], map[], map[], map[];
    }

    method Apply(obs: Observation)
      modifies this
      ensures Value() == ApplyTo(capacity, old(Value()), obs)
    {
      match obs.payload {
        case State(s) => ApplyState(obs, s);
        case Health(h) => ApplyHealth(obs, h);
        case IncidentSignal(s) => ApplySignal(obs, s);
        case Metric(v) => ApplyMetric(obs, v);
        case Capability =>
        case Heartbeat =>
        case NotProjected =>
      }
    }

    method ApplyState(obs: Observation, s: StateObservation)
      modifies this`state
      ensures state == Upsert(old(state), (obs.subject, StateName(s)), Projected(s, obs.id, obs.observedAt))
    {
      var key := (obs.subject, StateName(s));
      if key in state {
        if state[key].observedAt >= obs.observedAt {
          return;
        }
      }
      state := state[key := Projected(s, obs.id, obs.observedAt)];
    }

    method ApplyHealth(obs: Observation, h: HealthCheck)
      modifies this`health
      ensures health == Upsert(old(health), (obs.subject, h.target), Projected(h, obs.id, obs.observedAt))
    {
      var key := (obs.subject, h.target);
      if key in health {
        if health[key].observedAt >= obs.observedAt {
          return;
        }
      }
      health := health[key := Projected(h, obs.id, obs.observedAt)];
    }

    method ApplySignal(obs: Observation, s: SignalObservation)
      modifies this`signal
      ensures signal == Upsert(old(signal), (obs.subject, s.signal), Projected(s, obs.id, obs.observedAt))
    {
      var key := (obs.subject, s.signal);
      if key in signal {
        if signal[key].observedAt >= obs.observedAt {
          return;
        }
      }
      signal := signal[key := Projected(s, obs.id, obs.observedAt)];
    }

    method ApplyMetric(obs: Observation, v: MetricObservation)
      modifies this`metric
      ensures metric == Push(capacity, old(metric), (obs.subject, v.name), Projected(v, obs.id, obs.observedAt))
    {
      var key := (obs.subject, v.name);
      var q := if key in metric then metric[key] else [];
      q := q + [Projected(v, obs.id, obs.observedAt)];
      ghost var full := q;
      while |q| > capacity
        invariant |q| <= |full| && q == full[|full| - |q|..]
        invariant |q| < |full| ==> |q| >= capacity
      {
        q := q[1..];
      }
      metric := metric[key := q];
    }
  }

  // ---- Latest wins ----------------------------------------------------------------------------

  function Latest<V>(updates: seq<(Key, Projected<V>)>): LatestMap<V> {
    if updates == [] then map[]
    else
      var (k, p) := updates[|updates| - 1];
      Upsert(Latest(updates[..|updates| - 1]), k, p)
  }

  /** Update `j` is the first among the newest updates of key `k`. */
  ghost predicate FirstNewest<V>(updates: seq<(Key, Projected<V>)>, k: Key, j: nat) {
    j < |updates| && updates[j].0 == k
    && forall i :: 0 <= i < |updates| && updates[i].0 == k ==>
         updates[i].1.observedAt <= updates[j].1.observedAt
         && (i < j ==> updates[i].1.observedAt < updates[j].1.observedAt)
  }

  /** Each key holds the first-applied value among those with the greatest observation time. */
  lemma {:induction false} LatestWins<V>(updates: seq<(Key, Projected<V>)>, k: Key) returns (j: nat)
    ensures k in Latest(updates) <==> exists i :: 0 <= i < |updates| && updates[i].0 == k
    ensures k in Latest(updates) ==> FirstNewest(updates, k, j) && Latest(updates)[k] == updates[j].1
    decreases |updates|
  {
    j := 0;
    if updates != [] {
      var n := |updates| - 1;
      var front := updates[..n];
      j := LatestWins(front, k);
      if k in Latest(front) {
        assert updates[j] == front[j];
        forall i | 0 <= i < n && updates[i].0 == k
          ensures updates[i].1.observedAt <= updates[j].1.observedAt
                  && (i < j ==> updates[i].1.observedAt < updates[j].1.observedAt)
        {
          assert front[i] == updates[i];
        }
      } else {
        forall i | 0 <= i < n ensures updates[i].0 != k {
          assert front[i] == updates[i];
        }
      }
      if updates[n].0 == k && !(k in Latest(front) && Latest(front)[k].observedAt >= updates[n].1.observedAt) {
        j := n;
      }
    }
  }

  predicate DistinctTimes<V>(updates: seq<(Key, Projected<V>)>) {
    forall i, j :: 0 <= i < j < |updates| && updates[i].0 == updates[j].0 ==>
      updates[i].1.observedAt != updates[j].1.observedAt
  }

  /** Order of arrival does not matter when the times of each key are distinct. */
  lemma LatestIgnoresOrder<V>(a: seq<(Key, Projected<V>)>, b: seq<(Key, Projected<V>)>)
    requires multiset(a) == multiset(b) && DistinctTimes(a)
    ensures Latest(a) == Latest(b)
  {
    forall k ensures k in Latest(a) <==> k in Latest(b)
             ensures k in Latest(a) ==> Latest(a)[k] == Latest(b)[k]
    {
      var ja := LatestWins(a, k);
      var jb := LatestWins(b, k);
      if k in Latest(a) {
        var i := SameElement(a, b, ja);
        assert k in Latest(b);
        var i' := SameElement(b, a, jb);
        assert a[ja].1.observedAt == a[i'].1.observedAt;
      }
      if k in Latest(b) {
        var i' := SameElement(b, a, jb);
      }
    }
  }

  lemma SameElement<T>(a: seq<T>, b: seq<T>, i: nat) returns (j: nat)
    requires multiset(a) == multiset(b) && i < |a|
    ensures j < |b| && b[j] == a[i]
  {
    assert a[i] in multiset(a);
    assert a[i] in b;
    j :| 0 <= j < |b| && b[j] == a[i];
  }

  // ---- Routing ------------------------------------------------------------------------------------

  function StateUpdates(obs: seq<Observation>): seq<(Key, Projected<StateObservation>)> {
    if obs == [] then []
    else
      var o := obs[|obs| - 1];
      StateUpdates(obs[..|obs| - 1])
      + if o.payload.State? then [((o.subject, StateName(o.payload.state)), Projected(o.payload.state, o.id, o.observedAt))]
        else []
  }

  function HealthUpdates(obs: seq<Observation>): seq<(Key, Projected<HealthCheck>)> {
    if obs == [] then []
    else
      var o := obs[|obs| - 1];
      HealthUpdates(obs[..|obs| - 1])
      + if o.payload.Health? then [((o.subject, o.payload.health.target), Projected(o.payload.health, o.id, o.observedAt))]
        else []
  }

  function SignalUpdates(obs: seq<Observation>): seq<(Key, Projected<SignalObservation>)> {
    if obs == [] then []
    else
      var o := obs[|obs| - 1];
      SignalUpdates(obs[..|obs| - 1])
      + if o.payload.IncidentSignal? then
          [((o.subject, o.payload.signal.signal), Projected(o.payload.signal, o.id, o.observedAt))]
        else []
  }

  /** All samples ever applied to a series, oldest first. */
  function History(obs: seq<Observation>, k: Key): Ring {
    if obs == [] then []
    else
      var o := obs[|obs| - 1];
      History(obs[..|obs| - 1], k)
      + if o.payload.Metric? && (o.subject, o.payload.metric.name) == k then
          [Projected(o.payload.metric, o.id, o.observedAt)]
        else []
  }

  /** The store is the projections side by side, each fed only its own payloads; each metric
      series is the last `capacity` samples of its full history. */
  lemma {:induction false} StoreIsItsProjections(capacity: nat, obs: seq<Observation>)
    requires capacity > 0
    ensures var m := ApplyAll(capacity, NO_MODELS, obs);
            m.state == Latest(StateUpdates(obs))
            && m.health == Latest(HealthUpdates(obs))
            && m.signal == Latest(SignalUpdates(obs))
            && forall k :: (k in m.metric <==> History(obs, k) != [])
                           && (k in m.metric ==> m.metric[k] == LastN(History(obs, k), capacity))
    decreases |obs|
  {
    if obs != [] {
      var n := |obs| - 1;
      var front, o := obs[..n], obs[n];
      StoreIsItsProjections(capacity, front);
      if o.payload.State? {
        LatestAppend(StateUpdates(front), StateUpdates(obs)[|StateUpdates(front)|]);
      } else {
        assert StateUpdates(obs) == StateUpdates(front);
      }
      if o.payload.Health? {
        LatestAppend(HealthUpdates(front), HealthUpdates(obs)[|HealthUpdates(front)|]);
      } else {
        assert HealthUpdates(obs) == HealthUpdates(front);
      }
      if o.payload.IncidentSignal? {
        LatestAppend(SignalUpdates(front), SignalUpdates(obs)[|SignalUpdates(front)|]);
      } else {
        assert SignalUpdates(obs) == SignalUpdates(front);
      }
      forall k
        ensures var m := ApplyAll(capacity, NO_MODELS, obs);
                (k in m.metric <==> History(obs, k) != [])
                && (k in m.metric ==> m.metric[k] == LastN(History(obs, k), capacity))
      {
        if o.payload.Metric? && (o.subject, o.payload.metric.name) == k {
          LastNAppend(History(front, k), capacity, Projected(o.payload.metric, o.id, o.observedAt));
        } else {
          assert History(obs, k) == History(front, k);
        }
      }
    }
  }

  lemma LatestAppend<V>(updates: seq<(Key, Projected<V>)>, u: (Key, Projected<V>))
    ensures Latest(updates + [u]) == Upsert(Latest(updates), u.0, u.1)
  {
    assert (updates + [u])[..|updates|] == updates;
  }

  lemma LastNAppend<T>(s: seq<T>, n: nat, x: T)
    requires n > 0
    ensures LastN(LastN(s, n) + [x], n) == LastN(s + [x], n)
  {
  }

  // ---- Ring queries against the full history -----------------------------------------------------------

  function SamplesSince(ring: Ring, since: Timestamp): Ring {
    if ring == [] then []
    else SamplesSince(ring[..|ring| - 1], since)
         + if ring[|ring| - 1].observedAt > since then [ring[|ring| - 1]] else []
  }

  /** The trailing samples whose value equals `value`. */
  function TakeWhileBack(ring: Ring, value: real): Ring {
    if ring == [] || ring[|ring| - 1].value.value != value then []
    else TakeWhileBack(ring[..|ring| - 1], value) + [ring[|ring| - 1]]
  }

  function UnchangedFor(ring: Ring): Option<Ring> {
    if ring == [] then None else Some(TakeWhileBack(ring, ring[|ring| - 1].value.value))
  }

  /** The longest run of equal values at the end of `h` starts at `start`. */
  predicate TrailingRun(h: Ring, start: nat) {
    start < |h|
    && (forall i :: start <= i < |h| ==> h[i].value.value == h[|h| - 1].value.value)
    && (start > 0 ==> h[start - 1].value.value != h[|h| - 1].value.value)
  }

  lemma {:induction false} TakeWhileBackIsSuffix(ring: Ring, value: real, start: nat)
    requires start <= |ring|
    requires forall i :: start <= i < |ring| ==> ring[i].value.value == value
    requires start > 0 ==> ring[start - 1].value.value != value
    ensures TakeWhileBack(ring, value) == ring[start..]
    decreases |ring|
  {
    if start < |ring| {
      var last := ring[|ring| - 1];
      var front := ring[..|ring| - 1];
      TakeWhileBackIsSuffix(front, value, start);
      assert last.value.value == value;
      assert ring[start..] == front[start..] + [last];
    }
  }

  lemma DropDrop<T>(s: seq<T>, a: nat, b: nat)
    requires a + b <= |s|
    ensures s[a..][b..] == s[a + b..]
  {
  }

  lemma LastNOfDrop<T>(s: seq<T>, n: nat, start: nat)
    requires start <= |s|
    ensures LastN(s[start..], n) == s[if |s| - start <= n then start else |s| - n..]
  {
    if |s| - start > n {
      DropDrop(s, start, |s| - start - n);
    }
  }

  /** In the ring h[cut..] the run that reaches back to `from` is shown from there on. */
  lemma RingSeesRun(h: Ring, cut: nat, from: nat)
    requires cut <= from < |h|
    requires forall i :: from <= i < |h| ==> h[i].value.value == h[|h| - 1].value.value
    requires from > cut ==> h[from - 1].value.value != h[|h| - 1].value.value
    ensures UnchangedFor(h[cut..]) == Some(h[from..])
  {
    var ring, start := h[cut..], from - cut;
    var value := h[|h| - 1].value.value;
    assert ring[|ring| - 1] == h[|h| - 1];
    forall i | start <= i < |ring| ensures ring[i].value.value == value {
      assert ring[i] == h[cut + i];
    }
    TakeWhileBackIsSuffix(ring, value, start);
    DropDrop(h, cut, start);
  }

  /** What `unchanged_for` returns is the last min(capacity, run) samples of the trailing run
      of the full history. */
  lemma UnchangedForSeesTheRun(h: Ring, capacity: nat, start: nat)
    requires capacity > 0 && TrailingRun(h, start)
    ensures UnchangedFor(LastN(h, capacity)) == Some(LastN(h[start..], capacity))
  {
    var cut := if |h| <= capacity then 0 else |h| - capacity;
    LastNOfDrop(h, capacity, start);
    RingSeesRun(h, cut, if start >= cut then start else cut);
  }

  predicate Nondecreasing(h: Ring) {
    forall i, j :: 0 <= i < j < |h| ==> h[i].observedAt <= h[j].observedAt
  }

  lemma {:induction false} SinceSplit(a: Ring, b: Ring, since: Timestamp)
    ensures SamplesSince(a + b, since) == SamplesSince(a, since) + SamplesSince(b, since)
    decreases |b|
  {
    if b == [] {
      assert a + b == a;
    } else {
      var n := |b| - 1;
      SinceSplit(a, b[..n], since);
      assert (a + b)[..|a + b| - 1] == a + b[..n];
    }
  }

  lemma {:induction false} SinceEmpty(a: Ring, since: Timestamp)
    ensures SamplesSince(a, since) == [] <==> forall i :: 0 <= i < |a| ==> a[i].observedAt <= since
    decreases |a|
  {
    if a != [] {
      SinceEmpty(a[..|a| - 1], since);
      assert forall i :: 0 <= i < |a| - 1 ==> a[..|a| - 1][i] == a[i];
    }
  }

  /** On a history in time order the ring answers like the full history exactly when no evicted
      sample is newer than `since`; it is enough that the ring's front is not newer. */
  lemma SamplesSinceSeesAll(h: Ring, capacity: nat, since: Timestamp)
    requires capacity > 0 && Nondecreasing(h)
    ensures SamplesSince(LastN(h, capacity), since) == SamplesSince(h, since)
            <==> |h| <= capacity || h[|h| - capacity - 1].observedAt <= since
    ensures h != [] && LastN(h, capacity)[0].observedAt <= since ==>
              |h| <= capacity || h[|h| - capacity - 1].observedAt <= since
  {
    if |h| > capacity {
      var cut := |h| - capacity;
      var evicted, ring := h[..cut], h[cut..];
      assert h == evicted + ring;
      SinceSplit(evicted, ring, since);
      SinceEmpty(evicted, since);
      assert evicted[cut - 1] == h[cut - 1];
      assert |SamplesSince(h, since)| == |SamplesSince(evicted, since)| + |SamplesSince(ring, since)|;
      if h[cut - 1].observedAt <= since {
        assert SamplesSince(evicted, since) == [];
      }
    }
  }

  // ---- Queries the rules use -------------------------------------------------------------------------

  function LatestState(m: Models, subject: EntityRef, name: string): Option<Projected<StateObservation>> {
    if (subject, name) in m.state then Some(m.state[(subject, name)]) else None
  }

  function CurrentHealth(m: Models, subject: EntityRef, target: string): Option<HealthStatus> {
    if (subject, target) in m.health then Some(m.health[(subject, target)].value.status) else None
  }

  predicate SignalActive(m: Models, subject: EntityRef, signal: string) {
    (subject, signal) in m.signal && m.signal[(subject, signal)].value.status == Active
  }
}

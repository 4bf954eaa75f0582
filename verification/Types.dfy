/** Entities shared by every component of the incident pipeline.

    Strings are byte strings: one Dafny char stands for one byte of the program's
    UTF-8 text, so `|s|` is a length in bytes. Wall-clock and monotonic times are
    nanosecond counts; ids are fresh values supplied from outside. */
module Types {

  datatype Option<+T> = None | Some(value: T)

  datatype Result<+T, +E> = Ok(value: T) | Err(error: E)

  type Id = nat

  /** Monotonic clock reading and duration, in nanoseconds. */
  type Instant = nat
  type Duration = nat

  /** Wall-clock time, in nanoseconds since the epoch. */
  type Timestamp = int

  const SECOND: Duration := 1_000_000_000
  const MINUTE: Duration := 60 * SECOND
  const HOUR: Duration := 60 * MINUTE

  /** Durations are clamped to this many nanoseconds when they leave the program. */
  const I64_MAX: nat := 0x7FFF_FFFF_FFFF_FFFF

  /** Saturating difference of two monotonic readings: zero when the clock went backwards. */
  function DurationSince(later: Instant, earlier: Instant): (d: Duration)
    ensures earlier <= later ==> earlier + d == later
    ensures later < earlier ==> d == 0
  {
    if later >= earlier then later - earlier else 0
  }

  type Nibble = n: nat | n < 16

  /** A UUID as its 32 hexadecimal digits. */
  type Uuid = u: seq<Nibble> | |u| == 32 witness seq(32, _ => 0)

  datatype EntityRef =
    | Sidecar(uuid: Uuid)
    | Host(hostId: string)
    | BitcoinNode(nodeId: string)
    | BitcoinPeer(nodeId: string, subId: string)
    | LndNode(nodeId: string)
    | LndPeer(nodeId: string, subId: string)
    | LndChannel(nodeId: string, subId: string)
    | LndInvoice(nodeId: string, subId: string)

  datatype EntitySubjectKind =
    | SidecarKind
    | HostKind
    | BitcoinNodeKind
    | BitcoinPeerKind
    | LndNodeKind
    | LndPeerKind
    | LndChannelKind
    | LndInvoiceKind

  function SubjectKind(e: EntityRef): EntitySubjectKind {
    match e
    case Sidecar(_) => SidecarKind
    case Host(_) => HostKind
    case BitcoinNode(_) => BitcoinNodeKind
    case BitcoinPeer(_, _) => BitcoinPeerKind
    case LndNode(_) => LndNodeKind
    case LndPeer(_, _) => LndPeerKind
    case LndChannel(_, _) => LndChannelKind
    case LndInvoice(_, _) => LndInvoiceKind
  }

  datatype SignalStatus = Active | Cleared

  datatype SignalSeverity = Info | Warning | Critical

  datatype Confidence = Low | Medium | High

  datatype IncidentSeverity = Info | Warning | Critical

  datatype IncidentStatus = Open | Acknowledged | Resolved | Suppressed

  function SeverityRank(s: IncidentSeverity): nat {
    match s
    case Info => 0
    case Warning => 1
    case Critical => 2
  }

  /** Info < Warning < Critical. */
  predicate NotBelow(a: IncidentSeverity, b: IncidentSeverity) {
    b == IncidentSeverity.Info || a == IncidentSeverity.Critical || a == b
  }

  lemma RankIsOrder(a: IncidentSeverity, b: IncidentSeverity)
    ensures SeverityRank(a) >= SeverityRank(b) <==> NotBelow(a, b)
  {
  }

  /** What a diagnostic rule hands to the incident engine. */
  datatype Draft = Draft(
    subject: EntityRef,
    signal: string,
    kind: string,
    dimension: Option<string>,
    severity: SignalSeverity,
    status: SignalStatus,
    confidence: Confidence,
    evidence: seq<Id>)

  datatype Fingerprint = Fingerprint(subject: EntityRef, kind: string, dimension: Option<string>)

  datatype Incident = Incident(
    id: Id,
    fingerprint: Fingerprint,
    kind: string,
    subject: EntityRef,
    severity: IncidentSeverity,
    status: IncidentStatus,
    openedAt: Timestamp,
    updatedAt: Timestamp,
    resolvedAt: Option<Timestamp>,
    signalObservationIds: seq<Id>,
    evidence: seq<Id>,
    summary: string)

  datatype LifecycleEvent =
    | Opened(incident: Incident)
    | Escalated(incident: Incident, previousSeverity: IncidentSeverity, newSeverity: IncidentSeverity)
    | ResolvedEvent(incident: Incident)

  // ---- Observations ------------------------------------------------------------

  datatype HealthStatus = HealthOk | HealthWarning | HealthCritical | HealthUnknown

  datatype HealthCheck = HealthCheck(target: string, status: HealthStatus)

  /** The state shapes the diagnostic rules read; every other shape is `OtherState`. */
  datatype StateObservation =
    | BitcoinBlockchain(blocks: nat, headers: nat, verificationProgress: real, initialBlockDownload: bool)
    | BitcoinNetwork(connectionsOut: Option<nat>, networkActive: Option<bool>)
    | BitcoinPeerSummary(peerCount: nat, outboundCount: Option<nat>)
    | LndNodeState(blockHeight: nat)
    | LndChannelState(active: bool, isPrivate: bool, peerOnline: Option<bool>)
    | OtherState(stateName: string)

  datatype SignalObservation = SignalObservation(
    signal: string,
    incidentKind: string,
    severity: SignalSeverity,
    status: SignalStatus,
    confidence: Confidence,
    evidence: seq<Id>)

  /** A metric sample; `value` stands for the numeric, histogram or summary value,
      compared by a reflexive equality. */
  datatype MetricObservation = MetricObservation(name: string, value: real)

  datatype Payload =
    | State(state: StateObservation)
    | Metric(metric: MetricObservation)
    | Health(health: HealthCheck)
    | IncidentSignal(signal: SignalObservation)
    | Capability
    | Heartbeat
    | NotProjected

  datatype Observation = Observation(id: Id, observedAt: Timestamp, subject: EntityRef, payload: Payload)

  datatype Projected<V> = Projected(value: V, observationId: Id, observedAt: Timestamp)

  datatype ProbeResult =
    | ProbeOk(observations: seq<Observation>)
    | ProbeFailed(health: HealthCheck, partialObservations: seq<Observation>)

  // ---- Well-known names ------------------------------------------------------------

  const BITCOIN_RPC_UNREACHABLE := "bitcoin.rpc_unreachable"
  const BITCOIN_NO_PEERS := "bitcoin.no_peers"
  const BITCOIN_TIP_LAG := "bitcoin.tip_lag_or_ibd_stalled"
  const LND_CHANNEL_INACTIVE := "lnd.channel_inactive"
  const LND_CHAIN_BACKEND_LAG := "lnd.chain_backend_lag"

  /** The signal name a rule derives from an incident kind. */
  function SignalNameFor(kind: string): string {
    kind + ".signal"
  }
}

/** The entities of the core: request records, services, anomalies, policy drafts and their history. */
module Types {
  import opened Wrappers
  import opened JsonValues

  /**
   * One parsed mesh request. `timestamp` is the record's time in milliseconds
   * since the epoch (the source keeps an ISO string and parses it where it
   * compares times); `latencyMs` is a whole number of milliseconds.
   */
  datatype ParsedRequest = ParsedRequest(
    id: string,
    timestamp: int,
    source: string,
    sourceIp: string,
    httpMethod: string,
    path: string,
    status: int,
    latencyMs: nat,
    service: string,
    destService: Option<string>,
    userAgent: Option<string>,
    requestSize: Option<int>,
    responseSize: Option<int>)

  /** Per-service metrics; the numeric fields are floating point in the source and only stored here. */
  datatype ServiceInfo = ServiceInfo(
    name: string,
    namespace: string,
    requestsPerSecond: real,
    errorRate: real,
    avgLatency: real,
    lastSeen: string,
    dependencies: seq<string>,
    labels: map<string, string>)

  /** A `Partial<ServiceInfo>`: the fields to overwrite. */
  datatype ServicePatch = ServicePatch(
    name: Option<string>,
    namespace: Option<string>,
    requestsPerSecond: Option<real>,
    errorRate: Option<real>,
    avgLatency: Option<real>,
    lastSeen: Option<string>,
    dependencies: Option<seq<string>>,
    labels: Option<map<string, string>>)

  /** `{ ...service, ...patch }` */
  function MergeService(s: ServiceInfo, p: ServicePatch): ServiceInfo {
    ServiceInfo(
      p.name.GetOr(s.name),
      p.namespace.GetOr(s.namespace),
      p.requestsPerSecond.GetOr(s.requestsPerSecond),
      p.errorRate.GetOr(s.errorRate),
      p.avgLatency.GetOr(s.avgLatency),
      p.lastSeen.GetOr(s.lastSeen),
      p.dependencies.GetOr(s.dependencies),
      p.labels.GetOr(s.labels))
  }

  datatype AnomalyType =
    | UnusualSource
    | UnexpectedCommunication
    | NewEndpoint
    | HighErrorRate
    | TrafficSpike
    | SuspiciousPattern
    | LatencyAnomaly
    | UnauthorizedAccess

  /** The type's name as it appears in the source's strings. */
  function TypeName(t: AnomalyType): string {
    match t
    case UnusualSource => "UNUSUAL_SOURCE"
    case UnexpectedCommunication => "UNEXPECTED_COMMUNICATION"
    case NewEndpoint => "NEW_ENDPOINT"
    case HighErrorRate => "HIGH_ERROR_RATE"
    case TrafficSpike => "TRAFFIC_SPIKE"
    case SuspiciousPattern => "SUSPICIOUS_PATTERN"
    case LatencyAnomaly => "LATENCY_ANOMALY"
    case UnauthorizedAccess => "UNAUTHORIZED_ACCESS"
  }

  datatype Severity = Low | Medium | High | Critical

  /** A detected anomaly; `timestamp` is in milliseconds since the epoch. */
  datatype Anomaly = Anomaly(
    id: string,
    timestamp: int,
    service: string,
    kind: AnomalyType,
    severity: Severity,
    details: string,
    associatedLogs: seq<string>,
    suggestedPolicyDraftId: Option<string>)

  datatype PolicyStatus = Pending | Approved | Rejected | Applied

  function StatusName(s: PolicyStatus): string {
    match s
    case Pending => "pending"
    case Approved => "approved"
    case Rejected => "rejected"
    case Applied => "applied"
  }

  datatype PolicyDraft = PolicyDraft(
    id: string,
    createdAt: string,
    createdBy: string,
    service: string,
    namespace: string,
    yaml: string,
    status: PolicyStatus,
    reason: string,
    appliedAt: Option<string>,
    approvedBy: Option<string>,
    rejectedBy: Option<string>,
    rejectionReason: Option<string>,
    anomalyId: Option<string>)

  /** A `Partial<PolicyDraft>`: the fields to overwrite. */
  datatype DraftPatch = DraftPatch(
    status: Option<PolicyStatus>,
    appliedAt: Option<string>,
    approvedBy: Option<string>,
    rejectedBy: Option<string>,
    rejectionReason: Option<string>)

  /** `{ ...draft, ...patch }` */
  function MergeDraft(d: PolicyDraft, p: DraftPatch): PolicyDraft {
    d.(status := p.status.GetOr(d.status),
       appliedAt := if p.appliedAt.Some? then p.appliedAt else d.appliedAt,
       approvedBy := if p.approvedBy.Some? then p.approvedBy else d.approvedBy,
       rejectedBy := if p.rejectedBy.Some? then p.rejectedBy else d.rejectedBy,
       rejectionReason := if p.rejectionReason.Some? then p.rejectionReason else d.rejectionReason)
  }

  datatype HistoryAction = CreatedAction | ApprovedAction | RejectedAction | AppliedAction | DeletedAction

  datatype PolicyHistory = PolicyHistory(
    id: string,
    policyId: string,
    action: HistoryAction,
    timestamp: string,
    userId: string,
    details: string)

  /** One named list of strings inside a rule's `source` or `operation` object. */
  datatype ListField = ListField(key: string, values: seq<string>)

  /** `from: { source?: {...} }`; the source's entries keep the order they were written in. */
  datatype RuleFrom = RuleFrom(source: Option<seq<ListField>>)

  /** `to: { operation?: {...} }` */
  datatype RuleTo = RuleTo(operation: Option<seq<ListField>>)

  datatype Condition = Condition(key: string, values: seq<string>)

  datatype AuthorizationRule = AuthorizationRule(
    from: Option<RuleFrom>,
    to: Option<RuleTo>,
    when: Option<seq<Condition>>)

  datatype Role = Admin | Analyst | Viewer

  datatype User = User(id: string, username: string, password: string, role: Role, email: string, createdAt: string)

  datatype ManifestStatus = Active | Deleted

  datatype AppliedManifest = AppliedManifest(
    id: string,
    kind: string,
    apiVersion: string,
    name: string,
    namespace: string,
    spec: Json,
    appliedAt: string,
    appliedBy: string,
    status: ManifestStatus)
}

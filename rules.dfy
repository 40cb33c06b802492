/**
 * The eight anomaly detection rules, as functions of the batch of records
 * `runDetection` hands them (the 200 newest, newest first). A rule reports
 * at most one anomaly: the one built from the first record or group that
 * trips it. The three rules that group by service fail when grouping throws.
 */
module DetectionRules {
  import opened Wrappers
  import opened Js
  import opened OrderedMaps
  import opened Types
  import opened Grouping

  /**
   * `createAnomaly`: the given fields spread over a fresh id and the clock
   * reading, both supplied by the caller; a new anomaly suggests no policy yet.
   */
  function CreateAnomaly(id: string, now: int, service: string, kind: AnomalyType, severity: Severity,
                         details: string, associatedLogs: seq<string>): (r: Anomaly)
    ensures r.id == id && r.timestamp == now && r.kind == kind
    ensures r.service == service && r.severity == severity && r.details == details
    ensures r.associatedLogs == associatedLogs
    ensures r.suggestedPolicyDraftId.None?
  {
    Anomaly(id, now, service, kind, severity, details, associatedLogs, None)
  }

  /** A reported anomaly carries the rule's type, the caller's id and the clock reading. */
  predicate Stamped(r: Option<Anomaly>, kind: AnomalyType, id: string, now: int) {
    r.Some? ==> r.value.kind == kind && r.value.id == id && r.value.timestamp == now
  }

  function Ids(s: seq<ParsedRequest>): (r: seq<string>)
    ensures |r| == |s| && forall i :: 0 <= i < |s| ==> r[i] == s[i].id
  {
    seq(|s|, i requires 0 <= i < |s| => s[i].id)
  }

  /**
   * `r` is what a scan of `s` that stops at the first element satisfying `p`
   * reports: nothing when no element does, otherwise `make` of the first one.
   */
  ghost predicate ReportsFirst<T>(s: seq<T>, p: T -> bool, make: T -> Anomaly, r: Option<Anomaly>) {
    && (r.None? <==> forall i :: 0 <= i < |s| ==> !p(s[i]))
    && (r.Some? ==> exists i :: 0 <= i < |s| && p(s[i]) && (forall j :: 0 <= j < i ==> !p(s[j])) && r.value == make(s[i]))
  }

  function FirstReport<T>(s: seq<T>, p: T -> bool, make: T -> Anomaly): (r: Option<Anomaly>)
    ensures ReportsFirst(s, p, make, r)
  {
    match FindIndex(s, p)
    case None => None
    case Some(i) => Some(make(s[i]))
  }

  /** The report of a scan is fixed by the position of its first hit. */
  lemma FirstReportAt<T>(s: seq<T>, p: T -> bool, make: T -> Anomaly, i: nat)
    requires i < |s| && p(s[i]) && forall j :: 0 <= j < i ==> !p(s[j])
    ensures FirstReport(s, p, make) == Some(make(s[i]))
  {
    var k := FindIndex(s, p);
    assert k.Some?;
    assert !(k.value < i) && !(i < k.value);
  }

  // ---- rule 1: unusual source IP ----

  const SuspiciousIps: seq<string> := ["192.0.2.1", "198.51.100.42", "203.0.113.99"]

  predicate FromSuspiciousIp(l: ParsedRequest) { l.sourceIp in SuspiciousIps }

  function UnusualSourceAnomaly(l: ParsedRequest, id: string, now: int): Anomaly {
    CreateAnomaly(id, now, l.service, UnusualSource, Medium,
      "Request from suspicious IP " + l.sourceIp + " to " + l.path, [l.id])
  }

  /** The first of the oldest 50 records of the batch that comes from a listed IP. */
  function UnusualSourceRule(logs: seq<ParsedRequest>, id: string, now: int): (r: Option<Anomaly>)
    ensures ReportsFirst(Last(logs, 50), FromSuspiciousIp, (l: ParsedRequest) => UnusualSourceAnomaly(l, id, now), r)
    ensures Stamped(r, UnusualSource, id, now)
  {
    FirstReport(Last(logs, 50), FromSuspiciousIp, (l: ParsedRequest) => UnusualSourceAnomaly(l, id, now))
  }

  // ---- rule 2: unexpected service communication ----

  const KnownCommunications: set<string> := {
    "frontend->api-gateway",
    "api-gateway->auth-service",
    "api-gateway->payment-service",
    "api-gateway->inventory-service",
    "payment-service->billing-service",
    "inventory-service->notification-service"
  }

  /** A call with a (non-empty) destination whose `source->dest` pair is not known. */
  predicate UnexpectedCall(l: ParsedRequest) {
    Truthy(l.destService) && l.source + "->" + l.destService.value !in KnownCommunications
  }

  function UnexpectedCommunicationAnomaly(l: ParsedRequest, id: string, now: int): Anomaly {
    CreateAnomaly(id, now, l.service, UnexpectedCommunication, High,
      "Unexpected communication: " + l.source + " -> " + l.destService.GetOr(""), [l.id])
  }

  function UnexpectedCommunicationRule(logs: seq<ParsedRequest>, id: string, now: int): (r: Option<Anomaly>)
    ensures ReportsFirst(Last(logs, 50), UnexpectedCall, (l: ParsedRequest) => UnexpectedCommunicationAnomaly(l, id, now), r)
    ensures Stamped(r, UnexpectedCommunication, id, now)
  {
    FirstReport(Last(logs, 50), UnexpectedCall, (l: ParsedRequest) => UnexpectedCommunicationAnomaly(l, id, now))
  }

  // ---- rule 3: new endpoint access ----

  const KnownEndpoints: map<string, set<string>> := map[
    "auth-service" := {"/auth/login", "/auth/verify", "/auth/refresh", "/auth/logout"},
    "payment-service" := {"/payments", "/payments/process", "/payments/refund", "/payments/history"},
    "billing-service" := {"/billing/invoice", "/billing/statement", "/billing/calculate"},
    "inventory-service" := {"/inventory/stock", "/inventory/update", "/inventory/check"},
    "notification-service" := {"/notify/email", "/notify/sms", "/notify/push"}
  ]

  /** A path not listed for a service that has a list; unlisted services never trip it. */
  predicate UnknownEndpoint(l: ParsedRequest) {
    l.service in KnownEndpoints && l.path !in KnownEndpoints[l.service]
  }

  function NewEndpointAnomaly(l: ParsedRequest, id: string, now: int): Anomaly {
    CreateAnomaly(id, now, l.service, NewEndpoint, Low,
      "New endpoint accessed: " + l.httpMethod + " " + l.path + " on " + l.service, [l.id])
  }

  function NewEndpointRule(logs: seq<ParsedRequest>, id: string, now: int): (r: Option<Anomaly>)
    ensures ReportsFirst(Last(logs, 50), UnknownEndpoint, (l: ParsedRequest) => NewEndpointAnomaly(l, id, now), r)
    ensures Stamped(r, NewEndpoint, id, now)
  {
    FirstReport(Last(logs, 50), UnknownEndpoint, (l: ParsedRequest) => NewEndpointAnomaly(l, id, now))
  }

  // ---- rule 4: high error rate ----

  function Errors(s: seq<ParsedRequest>): seq<ParsedRequest> {
    Filter(s, (l: ParsedRequest) => l.status >= 400)
  }

  /** More than 20% of the group's requests failed (`errors / n * 100 > 20`) and it has over 10. */
  predicate HighErrorGroup(g: Group) {
    5 * |Errors(g.logs)| > |g.logs| && |g.logs| > 10
  }

  function HighErrorRateAnomaly(g: Group, id: string, now: int): Anomaly {
    var e, n := |Errors(g.logs)|, |g.logs|;
    CreateAnomaly(id, now, g.key, HighErrorRate, High,
      "High error rate detected: " + (if n == 0 then "NaN" else Fixed1(100 * e, n)) + "% (" +
        NatToString(e) + "/" + NatToString(n) + " requests)",
      First(Ids(Errors(g.logs)), 5))
  }

  function HighErrorRateRule(logs: seq<ParsedRequest>, id: string, now: int): (r: Result<Option<Anomaly>, string>)
    ensures r.Failure? <==> HitsPrototype(logs)
    ensures r.Success? ==>
              ReportsFirst(ServiceGroups(logs).value, HighErrorGroup, (g: Group) => HighErrorRateAnomaly(g, id, now), r.value)
    ensures r.Success? ==> Stamped(r.value, HighErrorRate, id, now)
  {
    match ServiceGroups(logs)
    case Failure(e) => Failure(e)
    case Success(gs) => Success(FirstReport(gs, HighErrorGroup, (g: Group) => HighErrorRateAnomaly(g, id, now)))
  }

  // ---- rule 5: traffic spike ----

  /** The group's requests stamped within the last ten seconds. */
  function Recent(s: seq<ParsedRequest>, now: int): seq<ParsedRequest> {
    Filter(s, (l: ParsedRequest) => l.timestamp > now - 10000)
  }

  /** More than 20 recent requests and more than three times `n / 20`. */
  predicate TrafficSpikeGroup(g: Group, now: int) {
    var recent := |Recent(g.logs, now)|;
    20 * recent > 3 * |g.logs| && recent > 20
  }

  function TrafficSpikeAnomaly(g: Group, id: string, now: int): Anomaly {
    CreateAnomaly(id, now, g.key, TrafficSpike, Medium,
      "Traffic spike detected: " + NatToString(|Recent(g.logs, now)|) + " requests in last 10s (baseline: " +
        NatToString(RoundDiv(|g.logs|, 20)) + ")",
      Ids(Last(g.logs, 5)))
  }

  function TrafficSpikeRule(logs: seq<ParsedRequest>, id: string, now: int): (r: Result<Option<Anomaly>, string>)
    ensures r.Failure? <==> HitsPrototype(logs)
    ensures r.Success? ==>
              ReportsFirst(ServiceGroups(logs).value, (g: Group) => TrafficSpikeGroup(g, now),
                           (g: Group) => TrafficSpikeAnomaly(g, id, now), r.value)
    ensures r.Success? ==> Stamped(r.value, TrafficSpike, id, now)
  {
    match ServiceGroups(logs)
    case Failure(e) => Failure(e)
    case Success(gs) =>
      Success(FirstReport(gs, (g: Group) => TrafficSpikeGroup(g, now), (g: Group) => TrafficSpikeAnomaly(g, id, now)))
  }

  // ---- rule 6: suspicious pattern ----

  /** `Map.prototype.entries`: insertion order. */
  function MapEntries(m: Buckets): (r: seq<Group>)
    requires m.Valid()
    ensures |r| == |m.keys|
    ensures forall i :: 0 <= i < |r| ==> r[i] == Group(m.keys[i], m.entries[m.keys[i]])
  {
    seq(|m.keys|, i requires 0 <= i < |m.keys| => Group(m.keys[i], m.entries[m.keys[i]]))
  }

  function IpGroups(logs: seq<ParsedRequest>): seq<Group> {
    MapEntries(Bucketed(Last(logs, 100), SourceIp))
  }

  predicate FloodGroup(g: Group) { |g.logs| > 30 }

  function SuspiciousPatternAnomaly(g: Group, id: string, now: int): Anomaly {
    CreateAnomaly(id, now, if g.logs == [] then "" else g.logs[0].service, SuspiciousPattern, High,
      "Suspicious activity from IP " + g.key + ": " + NatToString(|g.logs|) + " requests in short window (possible DoS)",
      Ids(First(g.logs, 5)))
  }

  /** The first source IP, in order of first appearance among the oldest 100, with more than 30 requests. */
  function SuspiciousPatternRule(logs: seq<ParsedRequest>, id: string, now: int): (r: Option<Anomaly>)
    ensures ReportsFirst(IpGroups(logs), FloodGroup, (g: Group) => SuspiciousPatternAnomaly(g, id, now), r)
    ensures Stamped(r, SuspiciousPattern, id, now)
  {
    FirstReport(IpGroups(logs), FloodGroup, (g: Group) => SuspiciousPatternAnomaly(g, id, now))
  }

  // ---- rule 7: latency anomaly ----

  function TotalLatency(s: seq<ParsedRequest>): nat {
    if s == [] then 0 else TotalLatency(s[..|s| - 1]) + s[|s| - 1].latencyMs
  }

  /**
   * A group of at least 10 whose last 10 average more than 200 ms and more
   * than three times the group's average: `sum10 / 10 > 3 * total / n`.
   */
  predicate LatencySpikeGroup(g: Group) {
    var n := |g.logs|;
    var recent := TotalLatency(Last(g.logs, 10));
    n >= 10 && recent * n > 30 * TotalLatency(g.logs) && recent > 2000
  }

  function LatencyAnomalyOf(g: Group, id: string, now: int): Anomaly {
    var n := |g.logs|;
    CreateAnomaly(id, now, g.key, LatencyAnomaly, Medium,
      "Latency spike detected: " + NatToString(RoundDiv(TotalLatency(Last(g.logs, 10)), 10)) + "ms (baseline: " +
        (if n == 0 then "NaN" else NatToString(RoundDiv(TotalLatency(g.logs), n))) + "ms)",
      Ids(Last(g.logs, 10)))
  }

  function LatencyAnomalyRule(logs: seq<ParsedRequest>, id: string, now: int): (r: Result<Option<Anomaly>, string>)
    ensures r.Failure? <==> HitsPrototype(logs)
    ensures r.Success? ==>
              ReportsFirst(ServiceGroups(logs).value, LatencySpikeGroup, (g: Group) => LatencyAnomalyOf(g, id, now), r.value)
    ensures r.Success? ==> Stamped(r.value, LatencyAnomaly, id, now)
  {
    match ServiceGroups(logs)
    case Failure(e) => Failure(e)
    case Success(gs) => Success(FirstReport(gs, LatencySpikeGroup, (g: Group) => LatencyAnomalyOf(g, id, now)))
  }

  // ---- rule 8: unauthorized access ----

  function Unauthorized(logs: seq<ParsedRequest>): seq<ParsedRequest> {
    Filter(Last(logs, 50), (l: ParsedRequest) => l.status == 401 || l.status == 403)
  }

  /**
   * More than five 401/403 responses among the oldest 50 of the batch; the
   * anomaly names the first one's service and the first five ids.
   */
  function UnauthorizedAccessRule(logs: seq<ParsedRequest>, id: string, now: int): (r: Option<Anomaly>)
    ensures var u := Unauthorized(logs);
      && (r.Some? <==> |u| > 5)
      && (r.Some? ==> r.value == CreateAnomaly(id, now, u[0].service, UnauthorizedAccess, High,
            "Multiple unauthorized access attempts detected: " + NatToString(|u|) + " requests with 401/403 status",
            Ids(u[..5])))
    ensures Stamped(r, UnauthorizedAccess, id, now)
  {
    var u := Unauthorized(logs);
    if |u| > 5 then
      Some(CreateAnomaly(id, now, u[0].service, UnauthorizedAccess, High,
        "Multiple unauthorized access attempts detected: " + NatToString(|u|) + " requests with 401/403 status",
        Ids(First(u, 5))))
    else None
  }

  // ---- the thresholds against the source's floating-point arithmetic ----

  /** `errorCount / n * 100 > 20`, read over the reals, is `5 * errorCount > n`. */
  lemma ErrorRateThreshold(e: nat, n: nat)
    requires n > 0
    ensures (e as real / n as real) * 100.0 > 20.0 <==> 5 * e > n
  {
    var q := e as real / n as real;
    assert q * n as real == e as real;
    SignOfProduct(q - 0.2, n as real);
    assert (q - 0.2) * n as real == e as real - 0.2 * n as real;
  }

  /** For a positive factor the sign of a product is the sign of the other factor. */
  lemma SignOfProduct(x: real, y: real)
    requires y > 0.0
    ensures x > 0.0 <==> x * y > 0.0
  {
    if x <= 0.0 {
      assert (-x) * y >= 0.0;
    }
  }

  /** `recentCount > n / 20 * 3`, read over the reals, is `20 * recentCount > 3 * n`. */
  lemma TrafficThreshold(recent: nat, n: nat)
    ensures recent as real > (n as real / 20.0) * 3.0 <==> 20 * recent > 3 * n
  {
  }

  /**
   * With at least ten records the window `slice(-10)` has ten, so
   * `sum10 / 10 > total / n * 3 && sum10 / 10 > 200`, read over the reals,
   * is the cross-multiplied test of `LatencySpikeGroup`.
   */
  lemma LatencyThreshold(sum10: nat, total: nat, n: nat)
    requires n >= 10
    ensures sum10 as real / 10.0 > (total as real / n as real) * 3.0 <==> sum10 * n > 30 * total
    ensures sum10 as real / 10.0 > 200.0 <==> sum10 > 2000
  {
    var avg := total as real / n as real;
    assert avg * n as real == total as real;
    SignOfProduct(sum10 as real - 30.0 * avg, n as real);
    assert (sum10 as real - 30.0 * avg) * n as real == (sum10 * n) as real - 30.0 * total as real;
  }

  // ---- what the reported anomalies point at ----

  /** A rule over the service groups reports the records of one service, all of them. */
  lemma ReportedGroup(logs: seq<ParsedRequest>, p: Group -> bool, make: Group -> Anomaly, r: Option<Anomaly>)
    requires ServiceGroups(logs).Success?
    requires ReportsFirst(ServiceGroups(logs).value, p, make, r) && r.Some?
    ensures exists g: Group :: g.logs == Matching(logs, Service, g.key) && g.logs != [] && p(g) && r.value == make(g)
  {
    var gs := ServiceGroups(logs).value;
    ServiceGroupsPartition(logs);
    var i :| 0 <= i < |gs| && p(gs[i]) && (forall j :: 0 <= j < i ==> !p(gs[j])) && r.value == make(gs[i]);
    assert gs[i].logs == Matching(logs, Service, gs[i].key);
  }

  /**
   * Rule 4 names a service with more than ten records in the batch, more
   * than a fifth of them failed, and lists the first five failed ones.
   */
  lemma HighErrorRateEvidence(logs: seq<ParsedRequest>, id: string, now: int, a: Anomaly)
    requires HighErrorRateRule(logs, id, now) == Success(Some(a))
    ensures var svc := Matching(logs, Service, a.service);
      && 5 * |Errors(svc)| > |svc| > 10
      && a.associatedLogs == Ids(Errors(svc)[..Min(5, |Errors(svc)|)])
      && forall x :: x in a.associatedLogs ==>
           exists l :: l in logs && l.id == x && l.service == a.service && l.status >= 400
  {
    ReportedGroup(logs, HighErrorGroup, (g: Group) => HighErrorRateAnomaly(g, id, now), Some(a));
    var g: Group :| g.logs == Matching(logs, Service, g.key) && g.logs != [] && HighErrorGroup(g)
             && a == HighErrorRateAnomaly(g, id, now);
    ErrorIds(logs, g.key, a.associatedLogs);
  }

  /** The first five failed records of a service, by id. */
  lemma ErrorIds(logs: seq<ParsedRequest>, service: string, ids: seq<string>)
    requires ids == First(Ids(Errors(Matching(logs, Service, service))), 5)
    ensures var errs := Errors(Matching(logs, Service, service));
      && ids == Ids(errs[..Min(5, |errs|)])
      && forall x :: x in ids ==> exists l :: l in logs && l.id == x && l.service == service && l.status >= 400
  {
    var errs := Errors(Matching(logs, Service, service));
    IdsPrefix(errs, Min(5, |errs|));
    forall x | x in ids
      ensures exists l :: l in logs && l.id == x && l.service == service && l.status >= 400
    {
      var t :| 0 <= t < Min(5, |errs|) && ids[t] == x;
      ErrorOfService(logs, service, errs[t]);
    }
  }

  lemma IdsPrefix(s: seq<ParsedRequest>, n: nat)
    requires n <= |s|
    ensures Ids(s)[..n] == Ids(s[..n])
  {
  }

  lemma ErrorOfService(logs: seq<ParsedRequest>, service: string, l: ParsedRequest)
    requires l in Errors(Matching(logs, Service, service))
    ensures l in logs && l.service == service && l.status >= 400
  {
    var svc := Matching(logs, Service, service);
    assert l in svc && l.status >= 400;
    assert Service(l) == service;
  }

  /** Rule 5 names a service with a burst of recent records and lists its five newest-placed ones. */
  lemma TrafficSpikeEvidence(logs: seq<ParsedRequest>, id: string, now: int, a: Anomaly)
    requires TrafficSpikeRule(logs, id, now) == Success(Some(a))
    ensures var svc := Matching(logs, Service, a.service);
      && 20 * |Recent(svc, now)| > 3 * |svc| && |Recent(svc, now)| > 20
      && a.associatedLogs == Ids(Last(svc, 5))
  {
    ReportedGroup(logs, (g: Group) => TrafficSpikeGroup(g, now), (g: Group) => TrafficSpikeAnomaly(g, id, now), Some(a));
  }

  /** Rule 7 names a service whose last ten records are slow, and lists those ten. */
  lemma LatencyAnomalyEvidence(logs: seq<ParsedRequest>, id: string, now: int, a: Anomaly)
    requires LatencyAnomalyRule(logs, id, now) == Success(Some(a))
    ensures var svc := Matching(logs, Service, a.service);
      && |svc| >= 10
      && TotalLatency(Last(svc, 10)) * |svc| > 30 * TotalLatency(svc) && TotalLatency(Last(svc, 10)) > 2000
      && a.associatedLogs == Ids(svc[|svc| - 10..])
  {
    ReportedGroup(logs, LatencySpikeGroup, (g: Group) => LatencyAnomalyOf(g, id, now), Some(a));
    var g: Group :| g.logs == Matching(logs, Service, g.key) && g.logs != [] && LatencySpikeGroup(g)
             && a == LatencyAnomalyOf(g, id, now);
    assert a.service == g.key && a.associatedLogs == Ids(Last(g.logs, 10));
  }

  /**
   * Rule 6 names a source IP with more than 30 of the oldest 100 records of
   * the batch, the service of its first one, and its first five records.
   */
  lemma SuspiciousPatternEvidence(logs: seq<ParsedRequest>, id: string, now: int, a: Anomaly)
    requires SuspiciousPatternRule(logs, id, now) == Some(a)
    ensures exists ip :: var w := Matching(Last(logs, 100), SourceIp, ip);
      |w| > 30 && a.service == w[0].service && a.associatedLogs == Ids(w[..5])
  {
    var window := Last(logs, 100);
    var m := Bucketed(window, SourceIp);
    BucketedPartition(window, SourceIp);
    var gs := IpGroups(logs);
    var i :| 0 <= i < |gs| && FloodGroup(gs[i]) && (forall j :: 0 <= j < i ==> !FloodGroup(gs[j]))
             && a == SuspiciousPatternAnomaly(gs[i], id, now);
    var ip := m.keys[i];
    assert ip in m.entries;
    assert gs[i].logs == Matching(window, SourceIp, ip);
  }

  /**
   * Rule 8 lists five 401/403 records from the oldest 50 of the batch and
   * counts all of them.
   */
  lemma UnauthorizedAccessEvidence(logs: seq<ParsedRequest>, id: string, now: int, a: Anomaly)
    requires UnauthorizedAccessRule(logs, id, now) == Some(a)
    ensures |a.associatedLogs| == 5
    ensures forall x :: x in a.associatedLogs ==>
              exists l :: l in Last(logs, 50) && l.id == x && (l.status == 401 || l.status == 403)
  {
    var u := Unauthorized(logs);
    forall x | x in a.associatedLogs
      ensures exists l :: l in Last(logs, 50) && l.id == x && (l.status == 401 || l.status == 403)
    {
      var t :| 0 <= t < 5 && a.associatedLogs[t] == x;
      assert u[t] in u;
    }
  }
}

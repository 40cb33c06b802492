/**
 * `generateRulesFromAnomaly`: the one authorization rule a policy draft
 * proposes for an anomaly, chosen by the anomaly's type and filled in with
 * what the regular expressions find in its details.
 */
module PolicyRules {
  import opened Wrappers
  import opened Js
  import opened Types
  import opened Extraction
  import opened Grouping
  import opened DetectionRules

  /** The address block used when no address is found in an unusual-source report. */
  const DefaultIpBlock := "192.0.2.0/24"
  /** The source name used when no `a -> b` pair is found. */
  const UnknownSource := "unknown"
  /** The path used when no path is found in a new-endpoint report. */
  const DefaultPath := "/api/*"
  /** The address block used when no labelled address is found in a suspicious-pattern report. */
  const AnyIpBlock := "0.0.0.0/0"
  /** Service-account principals live in the `default` namespace. */
  const PrincipalPrefix := "cluster.local/ns/default/sa/"
  const ForwardedForKey := "request.headers[x-forwarded-for]"

  /** Deny the listed address block, for every method. */
  function IpBlockRule(ip: string): AuthorizationRule {
    AuthorizationRule(
      Some(RuleFrom(Some([ListField("ipBlocks", [ip])]))),
      Some(RuleTo(Some([ListField("methods", ["*"])]))),
      None)
  }

  /** Deny the service account of `sourceService`, for every method. */
  function PrincipalRule(sourceService: string): AuthorizationRule {
    AuthorizationRule(
      Some(RuleFrom(Some([ListField("principals", [PrincipalPrefix + sourceService])]))),
      Some(RuleTo(Some([ListField("methods", ["*"])]))),
      None)
  }

  /** Deny `GET` and `POST` on one path. */
  function PathRule(path: string): AuthorizationRule {
    AuthorizationRule(
      None,
      Some(RuleTo(Some([ListField("paths", [path]), ListField("methods", ["GET", "POST"])]))),
      None)
  }

  /** Deny every method to requests that carry an `x-forwarded-for` header. */
  function ForwardedForRule(): AuthorizationRule {
    AuthorizationRule(
      None,
      Some(RuleTo(Some([ListField("methods", ["*"])]))),
      Some([Condition(ForwardedForKey, ["*"])]))
  }

  /** Deny the listed address block; the rule names no operation. */
  function SourceOnlyIpRule(ip: string): AuthorizationRule {
    AuthorizationRule(Some(RuleFrom(Some([ListField("ipBlocks", [ip])]))), None, None)
  }

  /** Deny the four common methods. */
  function MethodsRule(): AuthorizationRule {
    AuthorizationRule(None, Some(RuleTo(Some([ListField("methods", ["GET", "POST", "PUT", "DELETE"])]))), None)
  }

  // ---- reading a rule back ----

  /** The first list named `key` among `fields`. */
  function Lookup(fields: seq<ListField>, key: string): (r: Option<seq<string>>)
    ensures r.None? <==> forall i :: 0 <= i < |fields| ==> fields[i].key != key
    ensures r.Some? ==> exists i :: 0 <= i < |fields| && fields[i].key == key && fields[i].values == r.value
  {
    if fields == [] then None
    else if fields[0].key == key then Some(fields[0].values)
    else Lookup(fields[1..], key)
  }

  /** `rule.from?.source?.[key]` */
  function SourceList(rule: AuthorizationRule, key: string): Option<seq<string>> {
    if rule.from.Some? && rule.from.value.source.Some? then Lookup(rule.from.value.source.value, key) else None
  }

  /** `rule.to?.operation?.[key]` */
  function OperationList(rule: AuthorizationRule, key: string): Option<seq<string>> {
    if rule.to.Some? && rule.to.value.operation.Some? then Lookup(rule.to.value.operation.value, key) else None
  }

  // ---- the rules of each anomaly type ----

  /** `generateRulesFromAnomaly(anomaly)` */
  function GenerateRules(a: Anomaly): (r: seq<AuthorizationRule>)
    ensures |r| == 1
    ensures r[0].from.Some? <==> a.kind in {UnusualSource, UnexpectedCommunication, SuspiciousPattern}
    ensures r[0].to.None? <==> a.kind == SuspiciousPattern
    ensures r[0].when.Some? <==> a.kind in {HighErrorRate, UnauthorizedAccess}
    ensures OperationList(r[0], "paths").Some? <==> a.kind == NewEndpoint
  {
    match a.kind
    case UnusualSource => [IpBlockRule(MatchIp(a.details).GetOr(DefaultIpBlock))]
    case UnexpectedCommunication => [PrincipalRule(MatchArrowSource(a.details).GetOr(UnknownSource))]
    case NewEndpoint => [PathRule(MatchPath(a.details).GetOr(DefaultPath))]
    case HighErrorRate => [ForwardedForRule()]
    case UnauthorizedAccess => [ForwardedForRule()]
    case SuspiciousPattern => [SourceOnlyIpRule(MatchLabelledIp(a.details).GetOr(AnyIpBlock))]
    case _ => [MethodsRule()]
  }

  /** The unusual-source rule blocks the address found in the details, or the documentation block. */
  lemma UnusualSourceRuleContents(a: Anomaly)
    requires a.kind == UnusualSource
    ensures var r := GenerateRules(a)[0];
      && SourceList(r, "ipBlocks") == Some([MatchIp(a.details).GetOr(DefaultIpBlock)])
      && OperationList(r, "methods") == Some(["*"])
  {
  }

  /** The unexpected-communication rule denies the found source's service account. */
  lemma UnexpectedCommunicationRuleContents(a: Anomaly)
    requires a.kind == UnexpectedCommunication
    ensures var r := GenerateRules(a)[0];
      && SourceList(r, "principals") == Some([PrincipalPrefix + MatchArrowSource(a.details).GetOr(UnknownSource)])
      && OperationList(r, "methods") == Some(["*"])
  {
  }

  /** The new-endpoint rule names the found path and `GET`/`POST`, and no source. */
  lemma NewEndpointRuleContents(a: Anomaly)
    requires a.kind == NewEndpoint
    ensures var r := GenerateRules(a)[0];
      && OperationList(r, "paths") == Some([MatchPath(a.details).GetOr(DefaultPath)])
      && OperationList(r, "methods") == Some(["GET", "POST"])
      && r.from.None?
  {
    var fields := [ListField("paths", [MatchPath(a.details).GetOr(DefaultPath)]), ListField("methods", ["GET", "POST"])];
    assert Lookup(fields, "methods") == Lookup(fields[1..], "methods");
  }

  /** The suspicious-pattern rule blocks the found labelled address, or every address, and names no operation. */
  lemma SuspiciousPatternRuleContents(a: Anomaly)
    requires a.kind == SuspiciousPattern
    ensures var r := GenerateRules(a)[0];
      && SourceList(r, "ipBlocks") == Some([MatchLabelledIp(a.details).GetOr(AnyIpBlock)])
      && r.to.None? && r.when.None?
  {
  }

  /** A spike in traffic or latency gets the rule on the four common methods. */
  lemma DefaultRuleContents(a: Anomaly)
    requires a.kind in {TrafficSpike, LatencyAnomaly}
    ensures var r := GenerateRules(a)[0];
      && OperationList(r, "methods") == Some(["GET", "POST", "PUT", "DELETE"])
      && r.from.None? && r.when.None?
  {
  }

  /** The rules depend on nothing but the anomaly's type and details. */
  lemma RulesDependOnTypeAndDetails(a: Anomaly, b: Anomaly)
    requires a.kind == b.kind && a.details == b.details
    ensures GenerateRules(a) == GenerateRules(b)
  {
  }

  /** A high error rate and repeated unauthorized access get the same rule, whatever the details. */
  lemma ErrorRateAndUnauthorizedAlike(a: Anomaly, b: Anomaly)
    requires a.kind in {HighErrorRate, UnauthorizedAccess} && b.kind in {HighErrorRate, UnauthorizedAccess}
    ensures GenerateRules(a) == GenerateRules(b) == [ForwardedForRule()]
  {
  }

  /** Each fallback value is used exactly when its pattern finds nothing. */
  lemma Fallbacks(a: Anomaly)
    ensures a.kind == UnusualSource && MatchIp(a.details).None? ==>
              GenerateRules(a) == [IpBlockRule(DefaultIpBlock)]
    ensures a.kind == UnexpectedCommunication && MatchArrowSource(a.details).None? ==>
              GenerateRules(a) == [PrincipalRule(UnknownSource)]
    ensures a.kind == NewEndpoint && MatchPath(a.details).None? ==>
              GenerateRules(a) == [PathRule(DefaultPath)]
    ensures a.kind == SuspiciousPattern && MatchLabelledIp(a.details).None? ==>
              GenerateRules(a) == [SourceOnlyIpRule(AnyIpBlock)]
  {
  }

  // ---- from detected anomaly to rule ----

  lemma UnusualSourceLabelHasNoDigit()
    ensures forall i :: 0 <= i < |"Request from suspicious IP "| ==> !IsDigit("Request from suspicious IP "[i])
  {
  }

  lemma SuspiciousLabelHasNoI()
    ensures forall i :: 0 <= i < |"Suspicious activity from "| ==> "Suspicious activity from "[i] != 'I'
  {
  }

  lemma SuspiciousLabelSplits()
    ensures "Suspicious activity from IP " == "Suspicious activity from " + "IP "
  {
  }

  lemma GatewaySplits()
    ensures "api-gateway" == "api" + "-" + "gateway"
    ensures IsWord("api") && IsWord("gateway")
  {
  }

  /** A request from a listed suspicious address leads to a rule that blocks exactly that address. */
  lemma UnusualSourceBlocksItsIp(l: ParsedRequest, id: string, now: int)
    requires FromSuspiciousIp(l)
    ensures GenerateRules(UnusualSourceAnomaly(l, id, now)) == [IpBlockRule(l.sourceIp)]
  {
    UnusualSourceDetailsIp(l, id, now);
  }

  /** The address pattern finds the listed address in the unusual-source details. */
  lemma UnusualSourceDetailsIp(l: ParsedRequest, id: string, now: int)
    requires FromSuspiciousIp(l)
    ensures MatchIp(UnusualSourceAnomaly(l, id, now).details) == Some(l.sourceIp)
  {
    SuspiciousIpIsQuad(l.sourceIp);
    UnusualSourceLabelHasNoDigit();
    MatchIpAfter("Request from suspicious IP ", l.sourceIp, " to " + l.path);
    Assoc("Request from suspicious IP " + l.sourceIp, " to ", l.path);
  }

  lemma SuspiciousIpIsQuad(ip: string)
    requires ip in SuspiciousIps
    ensures IsQuad(ip)
  {
    SampleQuads();
  }

  /** A flood from a dotted-quad address leads to a rule that blocks exactly that address. */
  lemma SuspiciousPatternBlocksItsIp(g: Group, id: string, now: int)
    requires IsQuad(g.key)
    ensures GenerateRules(SuspiciousPatternAnomaly(g, id, now)) == [SourceOnlyIpRule(g.key)]
  {
    SuspiciousLabelHasNoI();
    var n := NatToString(|g.logs|);
    var tail := " requests in short window (possible DoS)";
    MatchLabelledIpAfter("Suspicious activity from ", g.key, ": " + n + tail);
    SuspiciousLabelSplits();
    Assoc("Suspicious activity from IP " + g.key, ": ", n);
    Assoc("Suspicious activity from IP " + g.key, ": " + n, tail);
  }

  /** An unexpected call from a one-word source denies that source's service account. */
  lemma UnexpectedCallDeniesSource(l: ParsedRequest, id: string, now: int)
    requires IsWord(l.source)
    requires l.destService.Some? && l.destService.value != [] && IsWordChar(l.destService.value[0])
    ensures GenerateRules(UnexpectedCommunicationAnomaly(l, id, now)) == [PrincipalRule(l.source)]
  {
    LabelArrowFree();
    ArrowFindsWordSource("Unexpected communication: ", l.source, l.destService.value);
  }

  /**
   * For a hyphenated source `u-v` the denied service account is `v`'s, not
   * the source's: `\w` excludes the hyphen.
   */
  lemma UnexpectedCallDeniesLastSegment(l: ParsedRequest, u: string, v: string, id: string, now: int)
    requires IsWord(u) && IsWord(v) && l.source == u + "-" + v
    requires l.destService.Some? && l.destService.value != [] && IsWordChar(l.destService.value[0])
    ensures GenerateRules(UnexpectedCommunicationAnomaly(l, id, now)) == [PrincipalRule(v)]
  {
    LabelArrowFree();
    ArrowFindsLastSegment("Unexpected communication: ", u, v, l.destService.value);
  }

  /** The gateway's own calls are attributed to a service account named `gateway`. */
  lemma GatewayBecomesGateway(l: ParsedRequest, id: string, now: int)
    requires l.source == "api-gateway"
    requires l.destService.Some? && l.destService.value != [] && IsWordChar(l.destService.value[0])
    ensures GenerateRules(UnexpectedCommunicationAnomaly(l, id, now)) == [PrincipalRule("gateway")]
    ensures PrincipalRule("gateway") != PrincipalRule(l.source)
  {
    GatewaySplits();
    UnexpectedCallDeniesLastSegment(l, "api", "gateway", id, now);
    assert |PrincipalPrefix + "gateway"| != |PrincipalPrefix + l.source|;
  }

  /**
   * An unknown endpoint leads to a rule on its path, cut at the first
   * character outside `[\w/]`: `path` is `"/" + r + t` with `r` made of such
   * characters and `t` empty or starting with another one.
   */
  lemma NewEndpointDeniesPath(l: ParsedRequest, r: string, t: string, id: string, now: int)
    requires forall i :: 0 <= i < |l.httpMethod| ==> l.httpMethod[i] != '/'
    requires l.path == "/" + r + t
    requires r != [] && forall i :: 0 <= i < |r| ==> IsPathChar(r[i])
    requires t == [] || !IsPathChar(t[0])
    ensures GenerateRules(NewEndpointAnomaly(l, id, now)) == [PathRule("/" + r)]
  {
    var p := "New endpoint accessed: " + l.httpMethod + " ";
    var rest := t + " on " + l.service;
    NoSlashBeforePath(l.httpMethod);
    assert rest == [] || !IsPathChar(rest[0]) by {
      if t == [] { assert rest[0] == ' '; } else { assert rest[0] == t[0]; }
    }
    MatchPathAfter(p, r, rest);
    Assoc(p, "/", r);
    Assoc(p, "/" + r, t);
    Assoc(p + "/" + r, t, " on ");
    Assoc(p + "/" + r, t + " on ", l.service);
  }

  lemma NoSlashBeforePath(m: string)
    requires forall i :: 0 <= i < |m| ==> m[i] != '/'
    ensures var p := "New endpoint accessed: " + m + " "; forall i :: 0 <= i < |p| ==> p[i] != '/'
  {
    assert forall i :: 0 <= i < |"New endpoint accessed: "| ==> "New endpoint accessed: "[i] != '/';
  }
}

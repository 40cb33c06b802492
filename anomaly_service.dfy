/**
 * `AnomalyService.runDetection`: every rule runs, in a fixed order, over the
 * 200 newest records; each anomaly a rule reports is stored and announced,
 * and a rule that throws is skipped without affecting the others.
 */
module AnomalyDetection {
  import opened Wrappers
  import opened Js
  import opened OrderedMaps
  import opened Types
  import opened Events
  import opened Grouping
  import opened DetectionRules
  import opened Store

  /** How many records `runDetection` asks the store for. */
  const BatchSize := 200

  const RuleCount := 8

  /** What a rule's check yields: an anomaly, none, or the error it throws. */
  type Outcome = Result<Option<Anomaly>, string>

  /** The rules in the order `runDetection` lists them. */
  const RuleKinds: seq<AnomalyType> := [
    UnusualSource, UnexpectedCommunication, NewEndpoint, HighErrorRate,
    TrafficSpike, SuspiciousPattern, LatencyAnomaly, UnauthorizedAccess
  ]

  function RuleIndex(t: AnomalyType): (r: nat)
    ensures r < RuleCount && RuleKinds[r] == t
  {
    match t
    case UnusualSource => 0
    case UnexpectedCommunication => 1
    case NewEndpoint => 2
    case HighErrorRate => 3
    case TrafficSpike => 4
    case SuspiciousPattern => 5
    case LatencyAnomaly => 6
    case UnauthorizedAccess => 7
  }

  /**
   * What the check of rule number `k` yields on the batch, given a fresh id
   * and the clock. Only the three rules that group by service can throw, and
   * they throw exactly when a service is named after an inherited property.
   */
  function Evaluate(k: nat, logs: seq<ParsedRequest>, id: string, now: int): (r: Outcome)
    requires k < RuleCount
    ensures r.Failure? <==> (k == 3 || k == 4 || k == 6) && HitsPrototype(logs)
  {
    if k == 0 then Success(UnusualSourceRule(logs, id, now))
    else if k == 1 then Success(UnexpectedCommunicationRule(logs, id, now))
    else if k == 2 then Success(NewEndpointRule(logs, id, now))
    else if k == 3 then HighErrorRateRule(logs, id, now)
    else if k == 4 then TrafficSpikeRule(logs, id, now)
    else if k == 5 then Success(SuspiciousPatternRule(logs, id, now))
    else if k == 6 then LatencyAnomalyRule(logs, id, now)
    else Success(UnauthorizedAccessRule(logs, id, now))
  }

  /** The anomaly a rule outcome contributes: none when it reports nothing or throws. */
  function Reported(r: Outcome): seq<Anomaly> {
    if r.Success? && r.value.Some? then [r.value.value] else []
  }

  /** The outcome of every rule, in rule order; rule `j` uses the fresh id `ids[j]`. */
  function Outcomes(logs: seq<ParsedRequest>, now: int, ids: seq<string>): (r: seq<Outcome>)
    requires |ids| == RuleCount
    ensures |r| == RuleCount
    ensures forall j :: 0 <= j < RuleCount ==> r[j] == Evaluate(j, logs, ids[j], now)
  {
    seq(RuleCount, j requires 0 <= j < RuleCount => Evaluate(j, logs, ids[j], now))
  }

  /** The anomalies of a sequence of rule outcomes, in order. */
  function Gather(outcomes: seq<Outcome>): (r: seq<Anomaly>)
  {
    if outcomes == [] then [] else Gather(outcomes[..|outcomes| - 1]) + Reported(outcomes[|outcomes| - 1])
  }

  /** The anomalies one detection pass finds, in rule order: at most one per rule. */
  function Detected(logs: seq<ParsedRequest>, now: int, ids: seq<string>): (r: seq<Anomaly>)
    requires |ids| == RuleCount
    ensures |r| <= RuleCount
  {
    GatherBound(Outcomes(logs, now, ids));
    Gather(Outcomes(logs, now, ids))
  }

  /** Each outcome contributes at most one anomaly. */
  lemma {:induction false} GatherBound(outcomes: seq<Outcome>)
    ensures |Gather(outcomes)| <= |outcomes|
  {
    if outcomes != [] {
      GatherBound(outcomes[..|outcomes| - 1]);
    }
  }

  /** The anomaly table after `addAnomaly` of each, in order. */
  function AddAll(m: OrderedMap<string, Anomaly>, anomalies: seq<Anomaly>): (r: OrderedMap<string, Anomaly>)
    requires m.Valid()
    ensures r.Valid()
  {
    if anomalies == [] then m
    else
      var last := anomalies[|anomalies| - 1];
      AddAll(m, anomalies[..|anomalies| - 1]).Set(last.id, last)
  }

  /** The `anomaly.created` events for the given anomalies, in order. */
  function Announced(anomalies: seq<Anomaly>): seq<Event> {
    if anomalies == [] then [] else Announced(anomalies[..|anomalies| - 1]) + [AnomalyCreated(anomalies[|anomalies| - 1])]
  }

  /**
   * The `for (const x of s)` scan shared by rules 1 to 7: return the anomaly
   * built from the first element that trips the rule, or nothing.
   */
  method ScanFirst<T>(s: seq<T>, p: T -> bool, make: T -> Anomaly) returns (r: Option<Anomaly>)
    ensures ReportsFirst(s, p, make, r)
    ensures r == FirstReport(s, p, make)
  {
    for i := 0 to |s|
      invariant forall j :: 0 <= j < i ==> !p(s[j])
    {
      if p(s[i]) {
        FirstReportAt(s, p, make, i);
        return Some(make(s[i]));
      }
    }
    return None;
  }

  /** `rule.check(recentLogs)` for rule number `k`, with a thrown error as a failure. */
  method Check(k: nat, logs: seq<ParsedRequest>, id: string, now: int) returns (r: Outcome)
    requires k < RuleCount
    ensures r == Evaluate(k, logs, id, now)
  {
    if k == 0 {
      var a := ScanFirst(Last(logs, 50), FromSuspiciousIp, (l: ParsedRequest) => UnusualSourceAnomaly(l, id, now));
      r := Success(a);
    } else if k == 1 {
      var a := ScanFirst(Last(logs, 50), UnexpectedCall, (l: ParsedRequest) => UnexpectedCommunicationAnomaly(l, id, now));
      r := Success(a);
    } else if k == 2 {
      var a := ScanFirst(Last(logs, 50), UnknownEndpoint, (l: ParsedRequest) => NewEndpointAnomaly(l, id, now));
      r := Success(a);
    } else if k == 5 {
      var groups := GroupBySourceIp(Last(logs, 100));
      var a := ScanFirst(MapEntries(groups), FloodGroup, (g: Group) => SuspiciousPatternAnomaly(g, id, now));
      r := Success(a);
    } else if k == 7 {
      r := Success(UnauthorizedAccessRule(logs, id, now));
    } else {
      var groups := GroupByService(logs);
      if groups.Failure? {
        return Failure(groups.error);
      }
      var a;
      if k == 3 {
        a := ScanFirst(groups.value, HighErrorGroup, (g: Group) => HighErrorRateAnomaly(g, id, now));
      } else if k == 4 {
        a := ScanFirst(groups.value, (g: Group) => TrafficSpikeGroup(g, now), (g: Group) => TrafficSpikeAnomaly(g, id, now));
      } else {
        a := ScanFirst(groups.value, LatencySpikeGroup, (g: Group) => LatencyAnomalyOf(g, id, now));
      }
      r := Success(a);
    }
  }

  /** The store's anomaly table after recording one outcome. */
  function Recorded(m: OrderedMap<string, Anomaly>, outcome: Outcome): (r: OrderedMap<string, Anomaly>)
    requires m.Valid()
    ensures r.Valid()
  {
    if outcome.Success? && outcome.value.Some? then m.Set(outcome.value.value.id, outcome.value.value) else m
  }

  /** One more outcome extends the table and the announcements by what it reports. */
  lemma GatherStep(m: OrderedMap<string, Anomaly>, outcomes: seq<Outcome>,
                   outcome: Outcome)
    requires m.Valid()
    ensures AddAll(m, Gather(outcomes + [outcome])) == Recorded(AddAll(m, Gather(outcomes)), outcome)
    ensures Announced(Gather(outcomes + [outcome])) == Announced(Gather(outcomes)) + Announced(Reported(outcome))
  {
    assert (outcomes + [outcome])[..|outcomes|] == outcomes;
    var before := Gather(outcomes);
    if outcome.Success? && outcome.value.Some? {
      assert (before + [outcome.value.value])[..|before|] == before;
      assert Announced([outcome.value.value]) == [AnomalyCreated(outcome.value.value)];
    } else {
      assert before + Reported(outcome) == before;
    }
  }

  // ---- what a detection pass reports ----

  /** A rule's anomaly carries the rule's type, the id handed to it and the clock reading. */
  lemma EvaluateShape(k: nat, logs: seq<ParsedRequest>, id: string, now: int)
    requires k < RuleCount
    ensures var r := Evaluate(k, logs, id, now); r.Success? ==> Stamped(r.value, RuleKinds[k], id, now)
  {
  }

  lemma {:induction false} GatherMembers(outcomes: seq<Outcome>, a: Anomaly)
    ensures a in Gather(outcomes) <==> exists j :: 0 <= j < |outcomes| && outcomes[j] == Success(Some(a))
  {
    if outcomes != [] {
      var init := outcomes[..|outcomes| - 1];
      GatherMembers(init, a);
      assert outcomes == init + [outcomes[|outcomes| - 1]];
      OccursSnoc(init, outcomes[|outcomes| - 1], Success(Some(a)));
    }
  }

  /** A value occurs in `init + [last]` when it occurs in `init` or is `last`. */
  lemma OccursSnoc<T>(init: seq<T>, last: T, v: T)
    ensures (exists j :: 0 <= j < |init + [last]| && (init + [last])[j] == v) <==>
              (exists j :: 0 <= j < |init| && init[j] == v) || last == v
  {
    var s := init + [last];
    if exists j :: 0 <= j < |s| && s[j] == v {
      var j :| 0 <= j < |s| && s[j] == v;
      if j < |init| { assert init[j] == v; }
    }
    if exists j :: 0 <= j < |init| && init[j] == v {
      var j :| 0 <= j < |init| && init[j] == v;
      assert s[j] == v;
    }
    assert s[|init|] == last;
  }


  /**
   * Rules are isolated: an anomaly is reported by a pass exactly when some
   * rule's check returns it, whatever the other rules do (throwing included).
   */
  lemma DetectedIffSomeRule(logs: seq<ParsedRequest>, now: int, ids: seq<string>, a: Anomaly)
    requires |ids| == RuleCount
    ensures a in Detected(logs, now, ids) <==>
              exists k :: 0 <= k < RuleCount && Evaluate(k, logs, ids[k], now) == Success(Some(a))
  {
    GatherMembers(Outcomes(logs, now, ids), a);
  }

  /** Each anomaly of a pass names its rule's id and the clock reading. */
  lemma DetectedStamps(logs: seq<ParsedRequest>, now: int, ids: seq<string>)
    requires |ids| == RuleCount
    ensures forall a :: a in Detected(logs, now, ids) ==> a.id == ids[RuleIndex(a.kind)] && a.timestamp == now
  {
    forall a | a in Detected(logs, now, ids) ensures a.id == ids[RuleIndex(a.kind)] && a.timestamp == now {
      DetectedIffSomeRule(logs, now, ids, a);
      var k :| 0 <= k < RuleCount && Evaluate(k, logs, ids[k], now) == Success(Some(a));
      ReportStamp(k, logs, ids[k], now);
    }
  }

  /** What rule `k` reports carries the kind of rule `k`, its id and the clock reading. */
  lemma ReportStamp(k: nat, logs: seq<ParsedRequest>, id: string, now: int)
    requires k < RuleCount
    ensures var r := Evaluate(k, logs, id, now);
      r.Success? && r.value.Some? ==>
        RuleIndex(r.value.value.kind) == k && r.value.value.id == id && r.value.value.timestamp == now
  {
    EvaluateShape(k, logs, id, now);
    KindsDistinct(k);
  }

  lemma KindsDistinct(k: nat)
    requires k < RuleCount
    ensures RuleIndex(RuleKinds[k]) == k
  {
  }

  /** Outcome `j` of the sequence, when it reports, reports an anomaly of rule `j`. */
  ghost predicate Ranked(outs: seq<Outcome>) {
    forall j :: 0 <= j < |outs| && outs[j].Success? && outs[j].value.Some? ==>
      RuleIndex(outs[j].value.value.kind) == j
  }

  lemma {:induction false} GatherOrdered(outs: seq<Outcome>)
    requires Ranked(outs)
    ensures var d := Gather(outs);
      && |d| <= |outs|
      && (forall i :: 0 <= i < |d| ==> RuleIndex(d[i].kind) < |outs|)
      && (forall i, j :: 0 <= i < j < |d| ==> RuleIndex(d[i].kind) < RuleIndex(d[j].kind))
  {
    if outs != [] {
      var init := outs[..|outs| - 1];
      assert Ranked(init) by {
        forall j | 0 <= j < |init| ensures init[j] == outs[j] { }
      }
      GatherOrdered(init);
    }
  }

  /** A pass reports at most one anomaly per rule, in rule order. */
  lemma DetectedInRuleOrder(logs: seq<ParsedRequest>, now: int, ids: seq<string>)
    requires |ids| == RuleCount
    ensures var d := Detected(logs, now, ids);
      && |d| <= RuleCount
      && forall i, j :: 0 <= i < j < |d| ==> RuleIndex(d[i].kind) < RuleIndex(d[j].kind)
  {
    var outs := Outcomes(logs, now, ids);
    forall j | 0 <= j < RuleCount && outs[j].Success? && outs[j].value.Some?
      ensures RuleIndex(outs[j].value.value.kind) == j
    {
      EvaluateShape(j, logs, ids[j], now);
    }
    GatherOrdered(outs);
  }

  /**
   * A service named after an inherited object property makes the three
   * rules that group by service throw; the other five still report.
   */
  lemma PrototypeNameSilencesGroupedRules(logs: seq<ParsedRequest>, now: int, ids: seq<string>)
    requires |ids| == RuleCount
    requires HitsPrototype(logs)
    ensures forall a :: a in Detected(logs, now, ids) ==>
              a.kind != HighErrorRate && a.kind != TrafficSpike && a.kind != LatencyAnomaly
    ensures Evaluate(3, logs, ids[3], now).Failure? && Evaluate(4, logs, ids[4], now).Failure?
    ensures Evaluate(6, logs, ids[6], now).Failure?
  {
    GroupedRulesThrow(logs, now, ids);
    forall a | a in Detected(logs, now, ids)
      ensures a.kind != HighErrorRate && a.kind != TrafficSpike && a.kind != LatencyAnomaly
    {
      DetectedIffSomeRule(logs, now, ids, a);
      var k :| 0 <= k < RuleCount && Evaluate(k, logs, ids[k], now) == Success(Some(a));
      assert k != 3 && k != 4 && k != 6;
      OtherRuleKind(k, logs, ids[k], now);
    }
  }

  /** What the five rules that do not group by service report is of none of the grouped kinds. */
  lemma OtherRuleKind(k: nat, logs: seq<ParsedRequest>, id: string, now: int)
    requires k < RuleCount && k != 3 && k != 4 && k != 6
    ensures var r := Evaluate(k, logs, id, now);
      r.Success? && r.value.Some? ==>
        r.value.value.kind != HighErrorRate && r.value.value.kind != TrafficSpike && r.value.value.kind != LatencyAnomaly
  {
    EvaluateShape(k, logs, id, now);
  }

  lemma GroupedRulesThrow(logs: seq<ParsedRequest>, now: int, ids: seq<string>)
    requires |ids| == RuleCount
    requires HitsPrototype(logs)
    ensures Evaluate(3, logs, ids[3], now).Failure? && Evaluate(4, logs, ids[4], now).Failure?
    ensures Evaluate(6, logs, ids[6], now).Failure?
  {
  }

  /**
   * The batch is newest first, so `slice(-50)` in rules 1, 2, 3 and 8 picks
   * the 151st to 200th newest records of a full store, newest of them first.
   */
  lemma BatchTailIsOldest<T>(all: seq<T>)
    requires |all| >= BatchSize
    ensures var w := Last(NewestFirst(all, BatchSize), 50);
      |w| == 50 && forall j :: 0 <= j < 50 ==> w[j] == all[|all| - 151 - j]
  {
  }

  /** Store and announce what one rule reported, if anything. */
  method Record(store: InMemoryStore, emitter: EventSink?, outcome: Outcome)
    requires store.Valid()
    modifies store`anomalies, emitter
    ensures store.Valid()
    ensures store.anomalies == Recorded(old(store.anomalies), outcome)
    ensures emitter != null ==> emitter.published == old(emitter.published) + Announced(Reported(outcome))
  {
    if outcome.Success? && outcome.value.Some? {
      var anomaly := outcome.value.value;
      store.AddAnomaly(anomaly);
      if emitter != null {
        assert Announced([anomaly]) == [AnomalyCreated(anomaly)];
        emitter.Emit(AnomalyCreated(anomaly));
      }
    }
  }

  /** One iteration of the rule loop: run rule `k`'s check, then record what it reports. */
  method RunRule(store: InMemoryStore, emitter: EventSink?, recentLogs: seq<ParsedRequest>, now: int,
                 ids: seq<string>, k: nat)
    requires |ids| == RuleCount && k < RuleCount
    requires store.Valid()
    modifies store`anomalies, emitter
    ensures store.Valid()
    ensures store.anomalies == Recorded(old(store.anomalies), Outcomes(recentLogs, now, ids)[k])
    ensures emitter != null ==>
              emitter.published == old(emitter.published) + Announced(Reported(Outcomes(recentLogs, now, ids)[k]))
  {
    var outcome := Check(k, recentLogs, ids[k], now);
    Record(store, emitter, outcome);
  }

  /**
   * The body of `runDetection`: run every rule over the 200 newest records;
   * its anomalies are added to the store in rule order and, when there is an
   * emitter, announced in the same order.
   */
  method DetectionPass(store: InMemoryStore, emitter: EventSink?, now: int, ids: seq<string>)
    requires |ids| == RuleCount
    requires store.Valid()
    modifies store`anomalies, emitter
    ensures store.Valid()
    ensures store.anomalies == AddAll(old(store.anomalies), Detected(old(store.GetLogs(BatchSize)), now, ids))
    ensures emitter != null ==>
              emitter.published == old(emitter.published) + Announced(Detected(old(store.GetLogs(BatchSize)), now, ids))
  {
    var recentLogs := store.GetLogs(BatchSize);
    ghost var outs := Outcomes(recentLogs, now, ids);
    for k := 0 to RuleCount
      invariant store.Valid()
      invariant store.anomalies == AddAll(old(store.anomalies), Gather(outs[..k]))
      invariant emitter != null ==>
                  emitter.published == old(emitter.published) + Announced(Gather(outs[..k]))
    {
      PassStep(store, emitter, recentLogs, now, ids, k, old(store.anomalies), if emitter != null then old(emitter.published) else []);
    }
    assert outs[..RuleCount] == outs;
  }

  /** Rule `k` of the pass extends what the first `k` rules stored and announced. */
  method PassStep(store: InMemoryStore, emitter: EventSink?, recentLogs: seq<ParsedRequest>, now: int,
                  ids: seq<string>, k: nat, ghost table: OrderedMap<string, Anomaly>, ghost events: seq<Event>)
    requires |ids| == RuleCount && k < RuleCount
    requires store.Valid() && table.Valid()
    requires store.anomalies == AddAll(table, Gather(Outcomes(recentLogs, now, ids)[..k]))
    requires emitter != null ==> emitter.published == events + Announced(Gather(Outcomes(recentLogs, now, ids)[..k]))
    modifies store`anomalies, emitter
    ensures store.Valid()
    ensures store.anomalies == AddAll(table, Gather(Outcomes(recentLogs, now, ids)[..k + 1]))
    ensures emitter != null ==> emitter.published == events + Announced(Gather(Outcomes(recentLogs, now, ids)[..k + 1]))
  {
    PrefixStep(table, events, Outcomes(recentLogs, now, ids), k);
    RunRule(store, emitter, recentLogs, now, ids, k);
  }

  /** What the first `k + 1` outcomes store and announce, from what the first `k` do. */
  lemma PrefixStep(table: OrderedMap<string, Anomaly>, events: seq<Event>, outs: seq<Outcome>, k: nat)
    requires table.Valid() && k < |outs|
    ensures AddAll(table, Gather(outs[..k + 1])) == Recorded(AddAll(table, Gather(outs[..k])), outs[k])
    ensures events + Announced(Gather(outs[..k + 1])) == events + Announced(Gather(outs[..k])) + Announced(Reported(outs[k]))
  {
    assert outs[..k + 1] == outs[..k] + [outs[k]];
    GatherStep(table, outs[..k], outs[k]);
    Assoc(events, Announced(Gather(outs[..k])), Announced(Reported(outs[k])));
  }

  class AnomalyService {
    const store: InMemoryStore
    var emitter: EventSink?

    constructor (store: InMemoryStore)
      ensures this.store == store && emitter == null
    {
      this.store := store;
      emitter := null;
    }

    method SetEventEmitter(emitter: EventSink?)
      modifies this`emitter
      ensures this.emitter == emitter
    {
      this.emitter := emitter;
    }

    /**
     * One detection pass: the anomalies of all rules over the 200 newest
     * records are added to the store and announced, in rule order; nothing
     * else in the store changes.
     */
    method RunDetection(now: int, ids: seq<string>)
      requires |ids| == RuleCount
      requires store.Valid()
      modifies store`anomalies, emitter
      ensures store.Valid()
      ensures store.anomalies == AddAll(old(store.anomalies), Detected(old(store.GetLogs(BatchSize)), now, ids))
      ensures emitter != null ==>
                emitter.published == old(emitter.published) + Announced(Detected(old(store.GetLogs(BatchSize)), now, ids))
    {
      DetectionPass(store, emitter, now, ids);
    }
  }
}

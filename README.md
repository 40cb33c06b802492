# Zentrion orchestrator core in Dafny

This project models the core of the Zentrion orchestrator API, a service that
watches the requests flowing through an Istio service mesh and reacts to them.
The model covers four parts:

- **The in-memory store** (`store.dfy`). It holds the request log, the
  services, the anomalies, the policy drafts, their history, the applied
  manifests, the users and the sessions. The JavaScript `Map`s are modelled as
  insertion-ordered maps (`ordered_map.dfy`). The request log is capped at
  1000 records: adding a new one evicts the oldest.
- **Anomaly detection** (`grouping.dfy`, `rules.dfy`, `anomaly_service.dfy`).
  A pass reads the newest 200 logs and runs eight detection rules in a fixed
  order: unusual source IP, unexpected service communication, new endpoint,
  high error rate, traffic spike, suspicious pattern, latency anomaly and
  unauthorized access. Every anomaly a rule reports is stored and announced.
  A rule that throws is skipped. Three rules (high error rate, traffic spike
  and latency anomaly) group the logs into a plain object keyed by service
  name; the suspicious-pattern rule groups by source IP in a `Map`. A service
  named after an `Object.prototype` member (`constructor`, `toString`, ...)
  therefore makes those three rules throw.
  The model keeps this failure: grouping returns a `Result`.
- **Policy generation and the draft lifecycle** (`extraction.dfy`,
  `policy_rules.dfy`, `lifecycle.dfy`, `policy_service.dfy`). An anomaly is
  turned into Istio authorization rules. The text of the anomaly is read with
  the same regular expressions the service uses; `extraction.dfy` gives them
  leftmost, greedy semantics. Drafts are created pending. They are then
  approved (applied to the cluster) or rejected exactly once. Each step
  appends to the policy history.
- **The Istio manifest builder** (`istio.dfy`, `yaml.dfy`). It builds the
  AuthorizationPolicy and PeerAuthentication manifests as JSON-like values
  (`json.dfy`). They are then rendered to text by the hand-written YAML
  converter, modelled both as a recursive function and as an imperative
  method proved equal to it.

JavaScript behaviour that the source relies on is written out in `js.dfy`:
`slice` with negative and oversized indices, `filter`, `reverse`, a
descending sort, decimal number printing and `Math.round`.

Clocks, uuid generation and the cluster call are parameters. Detection draws
a timestamp `now` (milliseconds) and one id per rule, `ids[k]`. A draft draws
its id, the millisecond clock used in the policy name, the ISO strings and the
history stamps (`DraftDraws`, `Stamp`). Approval receives the cluster's answer
as an `ApplyOutcome`. The WebSocket emitter is an `EventSink` object that
records the events published to it.

The source's quirks are kept as written and proved as lemmas, not corrected:

- `slice(-50)` of the newest-first batch selects its oldest 50 records.
- `(\w+)\s*->\s*(\w+)` turns `api-gateway -> x` into the principal `gateway`.
- The path pattern stops at the first character that is neither a word
  character nor `/`.
- An item that renders empty becomes a bare `- `.

## Model

| member | source | states |
|---|---|---|
| Store.InMemoryStore.constructor | src/common/store.ts:17-32 | every collection of a new store is empty |
| Store.InMemoryStore.AddLog | src/common/store.ts:35-42 | a known id is overwritten in place; a new id is appended; when the log already holds 1000 records the oldest inserted id is evicted; the new record is readable afterwards and the log never exceeds 1000 records |
| OrderedMaps.SetBoundedEffect | src/common/store.ts:35-42 | the three cases of a capped insert: overwrite in place, append below the cap, append and evict the first key at the cap |
| OrderedMaps.WindowKeepsLatest | src/common/store.ts:35-42 | after any sequence of inserts of fresh ids, the log keeps exactly the last 1000 ids in insertion order |
| OrderedMaps.DeleteFirst | src/common/store.ts:39-40 | deleting the first key of the iteration order removes exactly that key from the order |
| OrderedMaps.OrderedMap.Set | src/common/store.ts:36 | `Map.set`: the entry is updated; a known key keeps its position and a new key goes last |
| OrderedMaps.OrderedMap.Delete | src/common/store.ts:184-186 | `Map.delete`: the key leaves both the entries and the order, and the other keys keep their order |
| OrderedMaps.OrderedMap.Values | src/common/store.ts:45 | `Array.from(map.values())`: one value per key, in insertion order |
| Store.InMemoryStore.GetLogs | src/common/store.ts:44-50 | the result is the last `limit` matching records, newest first, with `slice(-limit)` semantics for zero and negative limits; a non-empty service filter keeps only that service's records |
| Store.NewestFirst | src/common/store.ts:49 | the length is min(limit, n) for a positive limit, n for a zero limit and n - min(-limit, n) for a negative limit; position i holds the (i+1)-th newest element |
| Js.Last | src/modules/anomaly/anomaly.service.ts:168 | `slice(-n)`: the last min(n, len) elements for positive n, everything for zero, a dropped prefix for negative n |
| Js.RelativeIndex | src/common/store.ts:49 | a JavaScript slice index: negative indices count from the end; results are clamped to [0, len] |
| Js.Slice | src/common/store.ts:90 | `slice(start, end)` is the segment between the two resolved indices, or empty when they cross |
| Js.Reverse | src/common/store.ts:49 | position i of the result holds position len-1-i of the input |
| Js.Filter | src/common/store.ts:47 | exactly the elements that satisfy the predicate survive |
| Js.FilterCount | src/common/store.ts:113-115 | each element keeps its multiplicity when it satisfies the predicate and disappears otherwise |
| Js.FilterAppend | src/common/store.ts:138 | filtering distributes over concatenation |
| Js.FindIndex | src/common/store.ts:168 | `find`: None when no element matches, otherwise the first match |
| Store.InMemoryStore.GetLog | src/common/store.ts:52-54 | a record is returned exactly when its id is in the log, and it is the stored one |
| Store.InMemoryStore.SetService | src/common/store.ts:57-59 | the service is stored under its name |
| Store.InMemoryStore.GetService | src/common/store.ts:61-63 | a service is returned exactly when its name is stored, and it is the stored one |
| Store.InMemoryStore.GetAllServices | src/common/store.ts:65-67 | all services in insertion order |
| Store.InMemoryStore.UpdateServiceMetrics | src/common/store.ts:69-74 | an unknown name changes nothing; a known one is replaced by the spread merge of the patch over it, keeping its position |
| Store.InMemoryStore.AddAnomaly | src/common/store.ts:77-79 | the anomaly is stored under its id |
| Store.InMemoryStore.GetAnomaly | src/common/store.ts:81-83 | an anomaly is returned exactly when its id is stored, and it is the stored one |
| Store.InMemoryStore.GetAllAnomalies | src/common/store.ts:85-91 | the stored anomalies sorted newest first, then `slice(0, limit)` when a non-zero limit is given: the first min(limit, n) for a positive limit, all but the last min(-limit, n) for a negative one |
| Store.NewestAnomalies | src/common/store.ts:85-91 | the result is sorted by timestamp descending; it is a sub-multiset of the anomalies, all of them when no limit applies, min(limit, n) of them for a positive limit, n - min(-limit, n) for a negative one, and none of the dropped ones is newer than a kept one |
| Js.SortDesc | src/common/store.ts:86-89 | the sort is a permutation and orders by the key descending |
| Store.InMemoryStore.GetAnomaliesByService | src/common/store.ts:93-97 | each anomaly of the service keeps its multiplicity; every other anomaly is absent |
| Store.InMemoryStore.AddPolicyDraft | src/common/store.ts:100-102 | the draft is stored under its id |
| Store.InMemoryStore.GetPolicyDraft | src/common/store.ts:104-106 | a draft is returned exactly when its id is stored, and it is the stored one |
| Store.InMemoryStore.GetAllPolicyDrafts | src/common/store.ts:108-110 | all drafts in insertion order |
| Store.InMemoryStore.GetPendingDrafts | src/common/store.ts:112-116 | exactly the pending drafts, with their multiplicities |
| Store.InMemoryStore.GetActivePolicies | src/common/store.ts:118-122 | exactly the applied drafts, with their multiplicities |
| Store.InMemoryStore.UpdatePolicyDraft | src/common/store.ts:124-129 | an unknown id changes nothing; a known one is replaced by the spread merge of the patch over it, keeping its position |
| Store.InMemoryStore.AddPolicyHistory | src/common/store.ts:132-134 | the entry is appended to the history |
| Store.InMemoryStore.GetPolicyHistory | src/common/store.ts:136-141 | with a non-empty policy id, that policy's entries in log order; otherwise the whole history, most recent first |
| Store.HistoryOfAppend | src/common/store.ts:132-141 | appending an entry extends one policy's history by that entry exactly when the entry belongs to that policy |
| Store.InMemoryStore.AddAppliedManifest | src/common/store.ts:144-146 | the manifest is stored under its id |
| Store.InMemoryStore.GetAppliedManifest | src/common/store.ts:148-150 | a manifest is returned exactly when its id is stored, and it is the stored one |
| Store.InMemoryStore.GetAllAppliedManifests | src/common/store.ts:152-156 | exactly the active manifests, with their multiplicities |
| Store.InMemoryStore.AddUser | src/common/store.ts:159-161 | the user is stored under its id |
| Store.InMemoryStore.GetUser | src/common/store.ts:163-165 | a user is returned exactly when its id is stored, and it is the stored one |
| Store.InMemoryStore.GetUserByUsername | src/common/store.ts:167-169 | None exactly when no user has that name; otherwise the first such user in insertion order |
| Store.InMemoryStore.GetAllUsers | src/common/store.ts:171-173 | all users in insertion order |
| Store.InMemoryStore.AddSession | src/common/store.ts:176-178 | the token maps to the user id |
| Store.InMemoryStore.GetSession | src/common/store.ts:180-182 | a user id is returned exactly when the token is stored, and it is the stored one |
| Store.InMemoryStore.RemoveSession | src/common/store.ts:184-186 | the token is gone and every other session is unchanged |
| Store.InMemoryStore.Clear | src/common/store.ts:189-198 | every collection is empty again |
| Store.InMemoryStore.GetStats | src/common/store.ts:200-211 | each of the eight counts is the size of its collection, and the log count never exceeds 1000 |
| Events.EventSink.Emit | src/modules/anomaly/anomaly.service.ts:155 | an emitted event is appended to what the sink has published |
| Grouping.GroupByService | src/modules/anomaly/anomaly.service.ts:346-359 | the reduce loop computes the service grouping, including the thrown TypeError |
| Grouping.ServiceGroups | src/modules/anomaly/anomaly.service.ts:346-359 | grouping fails exactly when some record's service is an `Object.prototype` member name |
| Grouping.ThrowsAt | src/modules/anomaly/anomaly.service.ts:351-354 | one record with such a service name makes the whole grouping fail with the `push is not a function` TypeError |
| Grouping.ServiceGroupsPartition | src/modules/anomaly/anomaly.service.ts:222 | a successful grouping is a partition: each group holds exactly its service's records in log order and is non-empty; keys are distinct; every record's service has a group |
| Grouping.BucketedPartition | src/modules/anomaly/anomaly.service.ts:349-358 | an accumulated bucket exists exactly for the keys that occur, and holds exactly the records with that key, in order |
| Grouping.PropertyOrder | src/modules/anomaly/anomaly.service.ts:222 | `Object.entries` visits every key once: first the array-index keys in ascending numeric order, then the other keys in insertion order |
| Grouping.GroupBySourceIp | src/modules/anomaly/anomaly.service.ts:274-282 | the forEach loop builds the per-IP buckets of its input, in first-appearance order |
| DetectionRules.CreateAnomaly | src/modules/anomaly/anomaly.service.ts:361-373 | a new anomaly carries the caller's id and clock reading, the given type, service, severity, details and log ids, and no suggested policy |
| DetectionRules.Ids | src/modules/anomaly/anomaly.service.ts:229 | `map((l) => l.id)`: same length, one id per record in order |
| DetectionRules.FirstReport | src/modules/anomaly/anomaly.service.ts:168-179 | the early-return scan: None when no element qualifies, otherwise the anomaly made from the first qualifying element |
| DetectionRules.FirstReportAt | src/modules/anomaly/anomaly.service.ts:168-179 | when element i is the first to qualify, the scan reports it |
| DetectionRules.MapEntries | src/modules/anomaly/anomaly.service.ts:284 | `Map.entries()` yields one group per key in insertion order |
| DetectionRules.UnusualSourceRule | src/modules/anomaly/anomaly.service.ts:165-180 | rule 1 reports the first of the last 50 records whose IP is one of the three suspicious IPs, stamped with its own id and `now` |
| DetectionRules.UnexpectedCommunicationRule | src/modules/anomaly/anomaly.service.ts:183-199 | rule 2 reports the first of the last 50 records with a non-empty destination whose `source->dest` pair is not a known communication |
| DetectionRules.NewEndpointRule | src/modules/anomaly/anomaly.service.ts:202-216 | rule 3 reports the first of the last 50 records of a service with a known endpoint set whose path is not in it |
| DetectionRules.HighErrorRateRule | src/modules/anomaly/anomaly.service.ts:219-242 | rule 4 throws exactly when grouping throws; otherwise it reports the first group in property order whose error rate tops 20% with more than 10 records |
| DetectionRules.ErrorRateThreshold | src/modules/anomaly/anomaly.service.ts:224-226 | the rate test `(e / n) * 100 > 20` holds exactly when 5e > n |
| DetectionRules.HighErrorRateEvidence | src/modules/anomaly/anomaly.service.ts:219-242 | a reported service has more than 10 records and a 20% error rate; the anomaly lists the ids of its first five error records, each an error of that service |
| DetectionRules.TrafficSpikeRule | src/modules/anomaly/anomaly.service.ts:245-267 | rule 5 throws exactly when grouping throws; otherwise it reports the first group whose records of the last 10 s exceed both three times the group size / 20 and 20 |
| DetectionRules.TrafficThreshold | src/modules/anomaly/anomaly.service.ts:254-256 | `recent > (n / 20) * 3` holds exactly when 20 recent > 3n |
| DetectionRules.TrafficSpikeEvidence | src/modules/anomaly/anomaly.service.ts:245-267 | a reported service meets both traffic thresholds, and the anomaly lists its last five record ids |
| DetectionRules.SuspiciousPatternRule | src/modules/anomaly/anomaly.service.ts:270-297 | rule 6 reports the first IP bucket of the last 100 records with more than 30 records |
| DetectionRules.SuspiciousPatternEvidence | src/modules/anomaly/anomaly.service.ts:284-294 | a report comes from an IP with more than 30 of the last 100 records; it names that IP's first record's service and lists its first five ids |
| DetectionRules.LatencyAnomalyRule | src/modules/anomaly/anomaly.service.ts:300-325 | rule 7 throws exactly when grouping throws; otherwise it reports the first group of at least 10 records whose last-10 average latency exceeds three times the overall average and 200 ms |
| DetectionRules.LatencyThreshold | src/modules/anomaly/anomaly.service.ts:306-314 | both latency comparisons on averages are equivalent to integer comparisons of sums |
| DetectionRules.LatencyAnomalyEvidence | src/modules/anomaly/anomaly.service.ts:300-325 | a reported service has at least 10 records and meets both latency thresholds, and the anomaly lists its last ten record ids |
| DetectionRules.UnauthorizedAccessRule | src/modules/anomaly/anomaly.service.ts:328-344 | rule 8 reports exactly when more than five of the last 50 records are 401/403; the report names the first such record's service and lists five ids |
| DetectionRules.UnauthorizedAccessEvidence | src/modules/anomaly/anomaly.service.ts:328-344 | a report lists five ids, each of a 401/403 record among the last 50 |
| DetectionRules.ReportedGroup | src/modules/anomaly/anomaly.service.ts:222-240 | a grouped rule reports only a genuine non-empty service group that passed its test |
| AnomalyDetection.RuleIndex | src/modules/anomaly/anomaly.service.ts:101-142 | every anomaly type has exactly one position in the eight-rule table |
| AnomalyDetection.Outcomes | src/modules/anomaly/anomaly.service.ts:144-146 | the eight rule outcomes, each rule run on the same batch with its own id |
| AnomalyDetection.Evaluate | src/modules/anomaly/anomaly.service.ts:101-146 | rule k's check on the batch; it throws exactly for the three rules that group by service, when a service is named after an inherited property |
| AnomalyDetection.Detected | src/modules/anomaly/anomaly.service.ts:144-161 | the anomalies of one pass in rule order, at most one per rule |
| AnomalyDetection.ScanFirst | src/modules/anomaly/anomaly.service.ts:168-179 | the early-return loop computes the first-qualifying report |
| AnomalyDetection.Check | src/modules/anomaly/anomaly.service.ts:144-146 | running rule k yields exactly that rule's outcome, a thrown error included |
| AnomalyDetection.Record | src/modules/anomaly/anomaly.service.ts:145-160 | a reported anomaly is stored and announced when an emitter is set; no report and a caught error change nothing |
| AnomalyDetection.RunRule | src/modules/anomaly/anomaly.service.ts:144-161 | one iteration of the rule loop records rule k's outcome |
| AnomalyDetection.DetectionPass | src/modules/anomaly/anomaly.service.ts:98-162 | a pass stores every anomaly detected on the newest 200 logs, in rule order, and announces the same list |
| AnomalyDetection.AnomalyService.constructor | src/modules/anomaly/anomaly.service.ts:75-78 | a new service uses the given store and has no emitter |
| AnomalyDetection.AnomalyService.SetEventEmitter | src/modules/anomaly/anomaly.service.ts:84-86 | the emitter is replaced |
| AnomalyDetection.AnomalyService.RunDetection | src/modules/anomaly/anomaly.service.ts:98-162 | the detection pass over the store |
| AnomalyDetection.DetectedIffSomeRule | src/modules/anomaly/anomaly.service.ts:144-157 | an anomaly is detected exactly when some rule reported it |
| AnomalyDetection.DetectedStamps | src/modules/anomaly/anomaly.service.ts:361-373 | each detected anomaly carries the id drawn for its rule and the pass's timestamp |
| AnomalyDetection.DetectedInRuleOrder | src/modules/anomaly/anomaly.service.ts:101-161 | a pass detects at most eight anomalies, in strictly increasing rule order, so at most one per type |
| AnomalyDetection.PrototypeNameSilencesGroupedRules | src/modules/anomaly/anomaly.service.ts:158-160 | when some service is named after an `Object.prototype` member, rules 4, 5 and 7 throw, and no high-error-rate, traffic-spike or latency anomaly is detected |
| AnomalyDetection.BatchTailIsOldest | src/modules/anomaly/anomaly.service.ts:168 | on a full batch, `slice(-50)` of the newest-first 200 logs is the 50 oldest of them, oldest last |
| Extraction.Leftmost | src/modules/policy/policy.service.ts:77 | a regex match starts at the leftmost position where the pattern matches |
| Extraction.Capture | src/modules/policy/policy.service.ts:77 | `match(...)[1]`: None exactly when the pattern matches nowhere, otherwise the group at the leftmost match |
| Extraction.QuadPrefix | src/modules/policy/policy.service.ts:77 | the greedy `\d+\.\d+\.\d+\.\d+` matches a whole dotted quad followed by a non-digit |
| Extraction.MatchIpAfter | src/modules/policy/policy.service.ts:77 | text with no digit before a dotted quad yields that quad |
| Extraction.SampleQuads | src/modules/anomaly/anomaly.service.ts:166 | the three suspicious IPs are dotted quads |
| Extraction.MatchLabelledIp | src/modules/policy/policy.service.ts:153 | `IP\s+(quad)`: None exactly when the pattern matches nowhere, otherwise the quad at the leftmost match |
| Extraction.MatchLabelledIpAfter | src/modules/policy/policy.service.ts:153 | text with no `I` before `IP ` and a quad yields that quad |
| Extraction.ArrowFindsWordSource | src/modules/policy/policy.service.ts:97 | `(\w+)\s*->\s*(\w+)` captures a word source written before ` -> ` |
| Extraction.ArrowFindsLastSegment | src/modules/policy/policy.service.ts:97 | for a hyphenated source `u-v`, the same pattern captures only `v` |
| Extraction.MatchPathAfter | src/modules/policy/policy.service.ts:117 | `(\/[\w/]+)` captures the first `/` and the path characters after it, up to the first other character |
| PolicyRules.GenerateRules | src/modules/policy/policy.service.ts:73-177 | one rule per anomaly: it has a source part exactly for unusual-source, unexpected-communication and suspicious-pattern anomalies, no operation exactly for suspicious patterns, a condition exactly for error-rate and unauthorized anomalies, and a path list exactly for new endpoints |
| PolicyRules.UnusualSourceRuleContents | src/modules/policy/policy.service.ts:75-92 | the rule blocks the first IP in the details (or 192.0.2.0/24) for all methods |
| PolicyRules.UnexpectedCommunicationRuleContents | src/modules/policy/policy.service.ts:95-113 | the rule names the principal of the arrow source in the details (or `unknown`) for all methods |
| PolicyRules.NewEndpointRuleContents | src/modules/policy/policy.service.ts:115-129 | the rule covers the first path in the details (or `/api/*`) for GET and POST, with no source |
| PolicyRules.ErrorRateAndUnauthorizedAlike | src/modules/policy/policy.service.ts:131-149 | both anomaly types yield the same x-forwarded-for rule for all methods |
| PolicyRules.SuspiciousPatternRuleContents | src/modules/policy/policy.service.ts:151-164 | the rule blocks the IP labelled `IP` in the details (or 0.0.0.0/0), with no operation and no condition |
| PolicyRules.DefaultRuleContents | src/modules/policy/policy.service.ts:166-175 | traffic-spike and latency anomalies yield the GET/POST/PUT/DELETE rule |
| PolicyRules.RulesDependOnTypeAndDetails | src/modules/policy/policy.service.ts:73-177 | the rules depend only on the anomaly's type and details |
| PolicyRules.Fallbacks | src/modules/policy/policy.service.ts:78 | each failed match falls back to its constant |
| PolicyRules.UnusualSourceDetailsIp | src/modules/policy/policy.service.ts:77 | the IP regex recovers a rule-1 anomaly's IP from its details |
| PolicyRules.UnusualSourceBlocksItsIp | src/modules/policy/policy.service.ts:75-92 | a rule-1 anomaly yields a rule that blocks exactly the offending IP |
| PolicyRules.SuspiciousPatternBlocksItsIp | src/modules/policy/policy.service.ts:151-164 | a rule-6 anomaly for a dotted-quad IP yields a rule that blocks exactly that IP |
| PolicyRules.UnexpectedCallDeniesSource | src/modules/policy/policy.service.ts:95-113 | a rule-2 anomaly from a one-word source names that source's principal |
| PolicyRules.UnexpectedCallDeniesLastSegment | src/modules/policy/policy.service.ts:97-98 | a rule-2 anomaly from a hyphenated source `u-v` names the principal `v`, not the source |
| PolicyRules.GatewayBecomesGateway | src/modules/policy/policy.service.ts:97-103 | calls from `api-gateway` yield the principal `.../sa/gateway`, which differs from the source's own |
| PolicyRules.NewEndpointDeniesPath | src/modules/policy/policy.service.ts:117-118 | a rule-3 anomaly yields the path prefix up to the first character that is neither a word character nor `/` |
| Yaml.Indent | src/modules/k8s/istio.builder.ts:93 | `'  '.repeat(n)` is 2n spaces |
| Yaml.Substring | src/modules/k8s/istio.builder.ts:112 | `substring(k)` is the suffix from k, or empty past the end |
| Yaml.Render | src/modules/k8s/istio.builder.ts:92-126 | `convertToYAML` of an object or array: the text of its entries in order; an empty one gives nothing |
| Yaml.Entries | src/modules/k8s/istio.builder.ts:96-123 | the text of the first k entries, an array's under the keys 0, 1, ...; no entries give nothing |
| Yaml.Entry | src/modules/k8s/istio.builder.ts:97-122 | an entry leaves no text exactly when its value is undefined or null |
| Yaml.Body | src/modules/k8s/istio.builder.ts:103-122 | a present value always writes something after `key:` |
| Yaml.Item | src/modules/k8s/istio.builder.ts:109-115 | an array element is never skipped: it always leaves at least its `- ` marker |
| Yaml.ConvertToYaml | src/modules/k8s/istio.builder.ts:92-126 | the imperative converter produces exactly the recursive rendering |
| Yaml.AppendEntry | src/modules/k8s/istio.builder.ts:96-122 | one loop iteration appends exactly that entry's rendering |
| Yaml.AppendItems | src/modules/k8s/istio.builder.ts:108-116 | the forEach appends the rendering of every item |
| Yaml.AppendItem | src/modules/k8s/istio.builder.ts:109-115 | one item is an object item or a scalar item |
| Yaml.NullishEntrySkipped | src/modules/k8s/istio.builder.ts:97-99 | an undefined or null field contributes nothing |
| Yaml.ObjectAppend | src/modules/k8s/istio.builder.ts:96-123 | the rendering of concatenated fields is the concatenation of the renderings |
| Yaml.StringEntry | src/modules/k8s/istio.builder.ts:120-121 | a scalar entry is `key: value` on one line |
| Yaml.EmptyArrayEntry | src/modules/k8s/istio.builder.ts:104-105 | an empty array renders `key: []` |
| Yaml.ObjectEntry | src/modules/k8s/istio.builder.ts:118-119 | an object entry opens `key:` and renders its fields one level deeper |
| Yaml.ArrayEntry | src/modules/k8s/istio.builder.ts:106-116 | a non-empty array opens `key:` and renders its items at the same level |
| Yaml.StringItem | src/modules/k8s/istio.builder.ts:113-114 | a scalar item is `- value` |
| Yaml.ItemsAppend | src/modules/k8s/istio.builder.ts:108-116 | item renderings concatenate |
| Yaml.EntriesIndented | src/modules/k8s/istio.builder.ts:101 | every non-empty rendering at depth n begins with 2n spaces |
| Yaml.ItemCutIsIndent | src/modules/k8s/istio.builder.ts:110-112 | cutting 2n+2 characters removes exactly the nested indentation, so an object item's first entry follows `- ` |
| Yaml.EmptyObjectItem | src/modules/k8s/istio.builder.ts:109-112 | an empty object item renders a bare `- ` with no newline |
| Istio.Strings | src/modules/k8s/istio.builder.ts:38 | a string list becomes a YAML array of the same strings |
| Istio.ListObject | src/modules/k8s/istio.builder.ts:38 | a source or operation object keeps its fields, keys and values in order |
| Istio.ListObjectContents | src/modules/k8s/istio.builder.ts:45 | reading a field of a source or operation object gives its value list |
| Istio.WhenValue | src/modules/k8s/istio.builder.ts:49 | the conditions are copied one for one, or left undefined |
| Istio.RuleValues | src/modules/k8s/istio.builder.ts:34 | `rules.map(...)` keeps the length and order of the rules |
| Istio.RuleValue | src/modules/k8s/istio.builder.ts:34-50 | a rendered rule has keys from, to and when; `from` and `to` are undefined exactly when absent, otherwise one-element arrays wrapping the source and the operation; `when` is passed through |
| Istio.RulesRenderable | src/modules/k8s/istio.builder.ts:34-50 | no rendered rule is null, so every rule can be converted |
| Istio.AuthorizationPolicyRenderable | src/modules/k8s/istio.builder.ts:15-52 | the authorization manifest contains no null array item |
| Istio.PeerAuthenticationRenderable | src/modules/k8s/istio.builder.ts:66-83 | the peer-authentication manifest contains no null array item |
| Istio.Description | src/modules/k8s/istio.builder.ts:22 | a non-empty description is used as given; a missing or empty one becomes `Authorization policy for <service>`; the result is never empty |
| Istio.PolicyNamesDistinct | src/modules/k8s/istio.builder.ts:19 | policies built at different milliseconds get different names |
| Istio.AuthorizationPolicyContents | src/modules/k8s/istio.builder.ts:15-51 | the manifest has kind AuthorizationPolicy, the timestamped name, the namespace, the description, the app selector, action DENY and the mapped rules |
| Istio.AnnotationsText | src/modules/k8s/istio.builder.ts:21-25 | the annotations render as description, generated and generated-at lines |
| Istio.SelectorText | src/modules/k8s/istio.builder.ts:28-32 | the selector renders as `matchLabels:` with the app line |
| Istio.AuthorizationMetadataText | src/modules/k8s/istio.builder.ts:18-26 | the metadata renders as name, namespace and annotations |
| Istio.RulesText | src/modules/k8s/istio.builder.ts:34-50 | no rules render as `rules: []`; otherwise `rules:` is followed by the items |
| Istio.AuthorizationSpecText | src/modules/k8s/istio.builder.ts:27-51 | the spec renders as selector, `action: DENY` and rules |
| Istio.BuildAuthorizationPolicy | src/modules/k8s/istio.builder.ts:9-56 | the whole authorization-policy text, line by line: apiVersion, kind, the metadata with the timestamped name and annotations, then the spec |
| Istio.PeerAuthenticationContents | src/modules/k8s/istio.builder.ts:66-83 | the manifest has kind PeerAuthentication, name `<service>-peer-auth`, the namespace, the app selector and the mTLS mode |
| Istio.PeerMetadataText | src/modules/k8s/istio.builder.ts:69-72 | the metadata renders as name and namespace lines |
| Istio.PeerSpecText | src/modules/k8s/istio.builder.ts:73-82 | the spec renders as selector and `mtls: mode` |
| Istio.BuildPeerAuthentication | src/modules/k8s/istio.builder.ts:61-86 | the whole peer-authentication text, line by line, ending with the mTLS mode |
| Istio.PeerAuthenticationDefaultsToStrict | src/modules/k8s/istio.builder.ts:64 | the default mode is STRICT |
| Istio.ModeNamesDistinct | src/modules/k8s/istio.builder.ts:80 | the three modes render differently |
| Lifecycle.Record | src/modules/policy/policy.service.ts:314-329 | adding history appends one entry for that policy and action and leaves the drafts alone |
| Lifecycle.RecordTrail | src/modules/policy/policy.service.ts:314-329 | a history entry extends only its own policy's trail, by its action |
| Lifecycle.PendingDraft | src/modules/policy/policy.service.ts:194-203 | a new draft is pending, carries every given field (id, createdAt, createdBy, service, namespace, yaml, reason, anomaly link) and has no approval or rejection data |
| Lifecycle.Guard | src/modules/policy/policy.service.ts:218-225 | a decision proceeds exactly for a stored pending draft; a missing draft is NotFound and a decided one is BadRequest, with the source's messages |
| Lifecycle.ErrorMessages | src/modules/policy/policy.service.ts:224 | the BadRequest messages name the draft's current status |
| Lifecycle.Create | src/modules/policy/policy.service.ts:205-211 | creating stores the draft under its id (appended to the order when new, in place otherwise) and appends exactly one `created` entry |
| Lifecycle.Approve | src/modules/policy/policy.service.ts:217-243 | approval fails with NotFound or BadRequest as guarded and with the cluster's error when applying fails, and succeeds otherwise; a success marks the pending draft applied with approver and time, keeps the draft order, and appends `approved` then `applied: <manifest id>` |
| Lifecycle.Reject | src/modules/policy/policy.service.ts:261-277 | rejection fails with NotFound or BadRequest as guarded, and succeeds otherwise; a success marks the pending draft rejected with rejecter and reason, keeps the order, and appends one `rejected` entry |
| Lifecycle.StatusMoves | src/modules/policy/policy.service.ts:231-235 | a successful approval moves pending to applied, and a rejection moves pending to rejected |
| Lifecycle.DecidedDraftsRefused | src/modules/policy/policy.service.ts:223-225 | an applied or rejected draft can be neither approved nor rejected again |
| Lifecycle.DecidedDraftsFinal | src/modules/policy/policy.service.ts:217-286 | no later operation changes an applied or rejected draft |
| Lifecycle.EmptyAuditConsistent | src/common/store.ts:26-27 | the empty store has a consistent audit trail |
| Lifecycle.CreatePreservesAudit | src/modules/policy/policy.service.ts:194-211 | creating a fresh pending draft keeps every draft's history matching its status |
| Lifecycle.ApprovePreservesAudit | src/modules/policy/policy.service.ts:231-243 | approving keeps every draft's history matching its status (created, approved, applied) |
| Lifecycle.RejectPreservesAudit | src/modules/policy/policy.service.ts:271-277 | rejecting keeps every draft's history matching its status (created, rejected) |
| PolicyServices.PolicyService.constructor | src/modules/policy/policy.service.ts:25 | a new service uses the given store and has no emitter |
| PolicyServices.PolicyService.SetEventEmitter | src/modules/policy/policy.service.ts:27-29 | the emitter is replaced |
| PolicyServices.PolicyService.BuildPolicyText | src/modules/policy/policy.service.ts:34-39 | the draft's text is the authorization policy built from the service, namespace, rules and description |
| PolicyServices.PolicyService.AddHistory | src/modules/policy/policy.service.ts:314-329 | the entry is appended to the store's history |
| PolicyServices.PolicyService.StoreDraft | src/modules/policy/policy.service.ts:53-59 | the draft is stored and its `created` entry appended; the audit stays consistent for a fresh pending draft |
| PolicyServices.PolicyService.DraftFromAnomaly | src/modules/policy/policy.service.ts:33-51 | the draft built from an anomaly |
| PolicyServices.PolicyService.StoreAndAnnounce | src/modules/policy/policy.service.ts:53-64 | storing a draft and announcing it as `policy.draft` when an emitter is set |
| PolicyServices.PolicyService.GeneratePolicyFromAnomaly | src/modules/policy/policy.service.ts:32-70 | the generated draft is stored with its history entry and announced; the audit stays consistent for a fresh id |
| PolicyServices.GeneratedDraft | src/modules/policy/policy.service.ts:41-51 | a generated draft is pending in namespace `default`, has the drawn id and creation time, links the anomaly, and cites its type and details |
| PolicyServices.GeneratedDraftPolicy | src/modules/policy/policy.service.ts:33-47 | a generated draft holds the policy built from the anomaly's rules, described as generated from its type |
| PolicyServices.GeneratedDescriptionUsed | src/modules/policy/policy.service.ts:38 | the generated description is never empty, so it is the one in the annotations |
| PolicyServices.PolicyService.CreateDraft | src/modules/policy/policy.service.ts:180-214 | the manual draft is stored with its `created` entry; nothing is announced; the audit stays consistent for a fresh id |
| PolicyServices.ManualDraft | src/modules/policy/policy.service.ts:187-203 | a manual draft is pending with the given fields and the drawn id and time, has no anomaly link, and holds the policy built from the given rules with the reason as description |
| PolicyServices.EmptyReasonFallsBack | src/modules/policy/policy.service.ts:191 | an empty reason gives the default description |
| PolicyServices.PolicyService.ApproveDraft | src/modules/policy/policy.service.ts:217-258 | approval fails without changing anything, or stores the approval and returns the updated draft; the audit stays consistent; the updated draft is announced as `policy.applied` |
| PolicyServices.PolicyService.MarkApplied | src/modules/policy/policy.service.ts:231-245 | the store update and the two history entries of a guarded approval |
| PolicyServices.PolicyService.RejectDraft | src/modules/policy/policy.service.ts:261-286 | rejection fails without changing anything, or stores the rejection and returns the updated draft; the audit stays consistent |
| PolicyServices.PolicyService.MarkRejected | src/modules/policy/policy.service.ts:271-285 | the store update and the history entry of a guarded rejection |
| PolicyServices.PolicyService.GetAllDrafts | src/modules/policy/policy.service.ts:289-291 | all drafts in insertion order |
| PolicyServices.PolicyService.GetPendingDrafts | src/modules/policy/policy.service.ts:294-296 | exactly the pending drafts |
| PolicyServices.PolicyService.GetActivePolicies | src/modules/policy/policy.service.ts:299-301 | exactly the applied drafts |
| PolicyServices.PolicyService.GetDraft | src/modules/policy/policy.service.ts:304-306 | the stored draft, present exactly when its id is stored |
| PolicyServices.PolicyService.GetHistory | src/modules/policy/policy.service.ts:309-311 | with a truthy id, exactly that policy's entries in log order; otherwise the whole history reversed position by position, which holds the same entries |
| Js.NatToString | src/modules/anomaly/anomaly.service.ts:236 | a count prints as decimal digits without a leading zero |
| Js.NatToStringValue | src/modules/anomaly/anomaly.service.ts:236 | the printed digits read back as the number |
| Js.NatToStringInjective | src/modules/anomaly/anomaly.service.ts:236 | different counts print differently |
| Js.RoundDiv | src/modules/anomaly/anomaly.service.ts:261 | `Math.round(p / q)` is within half of p / q |

## Left out

- Floating point: error rates, averages and baselines are exact rationals. A threshold compared on a binary float, or a `toFixed(1)`/`Math.round` tie, can differ from the source.
- Dates: timestamps are whole milliseconds. ISO date strings are opaque parameters, not parsed or formatted.
- Randomness and clocks: ids and clock readings are parameters of each operation.
- Logging, `setInterval` scheduling, module start-up and shut-down, and async/await are not modelled. Rule errors are caught and dropped, as in the source, without the log line.
- The class fields KNOWN_IPS and the anomaly service's read-through getters `getAllAnomalies`, `getAnomaly` and `getAnomaliesByService` are left out. KNOWN_IPS is never used; the getters only forward to the store.
- `k8sService.applyManifest` is outside this model. Its answer is the `ApplyOutcome` parameter. The manifest record it writes to the store is not modelled.
- PolicyServices.PolicyService.ApproveDraft and RejectDraft: the second `getPolicyDraft` after the update always finds the draft, so the second NotFound cannot occur and is not modelled.
- Types.DraftPatch: `updatePolicyDraft` accepts any `Partial<PolicyDraft>`; the patch is narrowed to the five fields its callers set (status, appliedAt, approvedBy, rejectedBy, rejectionReason).
- Js.SortDesc: stability is not stated. Which of several anomalies with equal timestamps a limit keeps is therefore not promised.
- The converter's numbers and booleans are left out. Every value the builders emit is a string.
- Yaml.ConvertToYaml requires no null array item. A null item would crash the source (`typeof null === 'object'`), and the builders never produce one.
- The YAML text is not parsed back: the model states what text is produced, not that a YAML library reads it as the manifest.
- Extraction: only the dotted quads that occur (the three suspicious IPs and any `IsQuad` string) are proved to round-trip through the IP pattern. Arbitrary text around them is not characterised.
- Users, sessions, JWT handling, controllers, DTO validation, the telemetry service and the WebSocket gateway lie outside the core; only the store operations they call are modelled.
